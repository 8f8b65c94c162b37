/** The backend connection pool of bfe_http/transport.go: how many connections a backend may have, and
    where every connection returned to the pool goes. Cache keys are numbers; each method is one
    critical section. */
module ConnPool {
  import opened Basics

  class PersistConn {
    const key: nat
    var broken: bool
    var closed: bool

    constructor (key: nat)
      ensures this.key == key && !broken && !closed
    {
      this.key := key;
      broken, closed := false, false;
    }
  }

  // ----------------------------------------------------------------------------------- counting

  ghost function For(conns: set<PersistConn>, k: nat): set<PersistConn> {
    set c | c in conns && c.key == k
  }

  lemma {:induction false} ForAdd(conns: set<PersistConn>, c: PersistConn, k: nat)
    requires c !in conns
    ensures |For(conns + {c}, k)| == |For(conns, k)| + (if c.key == k then 1 else 0)
  {
    if c.key == k {
      assert For(conns + {c}, k) == For(conns, k) + {c};
    } else {
      assert For(conns + {c}, k) == For(conns, k);
    }
  }

  lemma {:induction false} ForRemove(conns: set<PersistConn>, c: PersistConn, k: nat)
    requires c in conns
    ensures |For(conns, k)| == |For(conns - {c}, k)| + (if c.key == k then 1 else 0)
  {
    assert conns == (conns - {c}) + {c};
    ForAdd(conns - {c}, c, k);
  }

  function At(m: map<nat, int>, k: nat): int { if k in m then m[k] else 0 }

  /** Every backend's counter is its dials in progress plus its unclosed connections, within the
      limit; without a limit there are no counters. */
  ghost predicate Counted(connCnt: map<nat, int>, dials: map<nat, int>, unclosed: set<PersistConn>, limit: int) {
    forall k: nat :: CountAt(connCnt, dials, unclosed, limit, k)
  }

  ghost predicate CountAt(connCnt: map<nat, int>, dials: map<nat, int>, unclosed: set<PersistConn>, limit: int,
                          k: nat) {
    && At(dials, k) >= 0
    && if limit > 0 then At(connCnt, k) == At(dials, k) + |For(unclosed, k)| <= limit else connCnt == map[]
  }

  /** The counters after a change by d, where there are any. */
  function Bumped(connCnt: map<nat, int>, limit: int, key: nat, d: int): map<nat, int> {
    if limit > 0 then connCnt[key := At(connCnt, key) + d] else connCnt
  }

  lemma {:induction false} DialCounted(connCnt: map<nat, int>, dials: map<nat, int>, unclosed: set<PersistConn>,
                                       limit: int, key: nat, d: int)
    requires Counted(connCnt, dials, unclosed, limit)
    requires At(dials, key) + d >= 0 && (limit > 0 ==> At(connCnt, key) + d <= limit)
    ensures Counted(Bumped(connCnt, limit, key, d), dials[key := At(dials, key) + d], unclosed, limit)
  {
    var (cnt, dls) := (Bumped(connCnt, limit, key, d), dials[key := At(dials, key) + d]);
    forall k: nat
      ensures CountAt(cnt, dls, unclosed, limit, k)
    {
      assert CountAt(connCnt, dials, unclosed, limit, k);
    }
  }

  lemma {:induction false} ConnCounted(connCnt: map<nat, int>, dials: map<nat, int>, unclosed: set<PersistConn>,
                                       limit: int, c: PersistConn)
    requires Counted(connCnt, dials, unclosed, limit) && c !in unclosed && At(dials, c.key) > 0
    ensures Counted(connCnt, dials[c.key := At(dials, c.key) - 1], unclosed + {c}, limit)
  {
    var (dls, more) := (dials[c.key := At(dials, c.key) - 1], unclosed + {c});
    forall k: nat
      ensures CountAt(connCnt, dls, more, limit, k)
    {
      ForAdd(unclosed, c, k);
      assert CountAt(connCnt, dials, unclosed, limit, k);
    }
  }

  lemma {:induction false} CloseCounted(connCnt: map<nat, int>, dials: map<nat, int>, unclosed: set<PersistConn>,
                                        limit: int, c: PersistConn)
    requires Counted(connCnt, dials, unclosed, limit) && c in unclosed
    ensures Counted(Bumped(connCnt, limit, c.key, -1), dials, unclosed - {c}, limit)
  {
    var (cnt, fewer) := (Bumped(connCnt, limit, c.key, -1), unclosed - {c});
    forall k: nat
      ensures CountAt(cnt, dials, fewer, limit, k)
    {
      ForRemove(unclosed, c, k);
      assert CountAt(connCnt, dials, unclosed, limit, k);
    }
  }

  lemma {:induction false} CountOf(connCnt: map<nat, int>, dials: map<nat, int>, unclosed: set<PersistConn>,
                                   limit: int, k: nat)
    requires Counted(connCnt, dials, unclosed, limit)
    ensures At(dials, k) >= 0 && (limit > 0 ==> At(connCnt, k) == At(dials, k) + |For(unclosed, k)| <= limit)
    ensures At(dials, k) > 0 || For(unclosed, k) != {} ==> (connCnt == map[] <==> limit <= 0)
  {
    assert CountAt(connCnt, dials, unclosed, limit, k);
  }

  // ------------------------------------------------------------------------------- the idle lists

  /** All idle connections. */
  ghost function Stock(idle: map<nat, seq<PersistConn>>): multiset<PersistConn>
    decreases |idle|
  {
    if idle == map[] then multiset{} else
      var k := Least(idle.Keys);
      multiset(idle[k]) + Stock(idle - {k})
  }

  lemma {:induction false} StockSplit(idle: map<nat, seq<PersistConn>>, k: nat)
    requires k in idle
    ensures Stock(idle) == multiset(idle[k]) + Stock(idle - {k})
    decreases |idle|
  {
    var m := Least(idle.Keys);
    if m != k {
      StockSplit(idle - {m}, k);
      assert idle - {m} - {k} == idle - {k} - {m};
      StockSplit(idle - {k}, m);
    }
  }

  lemma {:induction false} StockUpdate(idle: map<nat, seq<PersistConn>>, k: nat, conns: seq<PersistConn>)
    ensures Stock(idle[k := conns]) == multiset(conns) + Stock(idle - {k})
    ensures k !in idle ==> idle - {k} == idle
    ensures k in idle ==> Stock(idle) == multiset(idle[k]) + Stock(idle - {k})
  {
    StockSplit(idle[k := conns], k);
    assert idle[k := conns] - {k} == idle - {k};
    if k in idle { StockSplit(idle, k); }
  }

  /** No idle list is empty or over its cap, and each holds only connections of its backend. */
  ghost predicate Lists(idle: map<nat, seq<PersistConn>>, all: set<PersistConn>, cap: int) {
    forall k :: k in idle ==>
      && 0 < |idle[k]| <= cap
      && (forall i :: 0 <= i < |idle[k]| ==> idle[k][i] in all && idle[k][i].key == k)
  }

  /** Where the connections ever put into the pool went. */
  datatype Ledger = Ledger(
    entered: multiset<PersistConn>, handed: multiset<PersistConn>, evicted: multiset<PersistConn>,
    bulk: multiset<PersistConn>, dropped: multiset<PersistConn>)

  /** Every put is matched by exactly one hand-out, eviction, bulk close, drop as broken, or remaining
      entry. */
  ghost predicate Matched(l: Ledger, idle: map<nat, seq<PersistConn>>) {
    l.entered == l.handed + l.evicted + l.bulk + l.dropped + Stock(idle)
  }

  ghost predicate Flags(all: set<PersistConn>, unclosed: set<PersistConn>)
    reads all
  {
    unclosed <= all && forall c :: c in all ==> (c.closed <==> c !in unclosed) && (c.closed ==> c.broken)
  }

  lemma {:induction false} MatchedPut(l: Ledger, idle: map<nat, seq<PersistConn>>, k: nat, c: PersistConn)
    requires Matched(l, idle)
    ensures var list := if k in idle then idle[k] else [];
            Matched(l.(entered := l.entered + multiset{c}), idle[k := list + [c]])
  {
    hide Stock;
    var list := if k in idle then idle[k] else [];
    StockUpdate(idle, k, list + [c]);
  }

  lemma {:induction false} MatchedEvict(l: Ledger, idle: map<nat, seq<PersistConn>>, k: nat, c: PersistConn)
    requires Matched(l, idle) && k in idle && idle[k] != []
    ensures Matched(l.(entered := l.entered + multiset{c}, evicted := l.evicted + multiset{idle[k][0]}),
                    idle[k := idle[k][1..] + [c]])
  {
    hide Stock;
    var list := idle[k];
    assert list == [list[0]] + list[1..];
    StockUpdate(idle, k, list[1..] + [c]);
  }

  lemma {:induction false} MatchedPop(l: Ledger, idle: map<nat, seq<PersistConn>>, k: nat)
    requires Matched(l, idle) && k in idle && idle[k] != []
    ensures var list := idle[k];
            var c := list[|list| - 1];
            var idle' := if |list| == 1 then idle - {k} else idle[k := list[..|list| - 1]];
            Matched(l.(handed := l.handed + multiset{c}), idle')
            && Matched(l.(dropped := l.dropped + multiset{c}), idle')
  {
    hide Stock;
    var list := idle[k];
    assert list == list[..|list| - 1] + [list[|list| - 1]];
    StockSplit(idle, k);
    StockUpdate(idle, k, list[..|list| - 1]);
  }

  /** c is the last connection of the list that is not broken, and rest is what comes before it. */
  ghost predicate Newest(list: seq<PersistConn>, c: PersistConn, rest: seq<PersistConn>)
    reads list
  {
    && |rest| < |list| && rest == list[..|rest|] && list[|rest|] == c && !c.broken
    && forall i :: |rest| < i < |list| ==> list[i].broken
  }

  class Transport {
    const maxIdle: int
    const maxConns: int
    const noKeepAlive: bool
    var idle: map<nat, seq<PersistConn>>
    var connCnt: map<nat, int>
    ghost var dials: map<nat, int>
    ghost var all: set<PersistConn>
    ghost var unclosed: set<PersistConn>
    ghost var ledger: Ledger

    function Cap(): int { if maxIdle == 0 then 2 else maxIdle }

    ghost predicate Valid()
      reads this, all
    {
      && Flags(all, unclosed) && Matched(ledger, idle)
      && Counted(connCnt, dials, unclosed, maxConns)
      && Lists(idle, all, Cap())
    }

    constructor (maxIdle: int, maxConns: int, noKeepAlive: bool)
      ensures Valid() && this.maxIdle == maxIdle && this.maxConns == maxConns && this.noKeepAlive == noKeepAlive
      ensures idle == map[] && all == {}
    {
      this.maxIdle, this.maxConns, this.noKeepAlive := maxIdle, maxConns, noKeepAlive;
      idle, connCnt, dials, all, unclosed := map[], map[], map[], {}, {};
      ledger := Ledger(multiset{}, multiset{}, multiset{}, multiset{}, multiset{});
      new;
      assert forall k :: For({}, k) == {};
    }

    /** releaseConnCnt; the map is nil until a dial was counted. */
    method ReleaseConnCnt(key: nat)
      modifies this`connCnt
      ensures connCnt == if old(connCnt) == map[] then map[] else old(connCnt)[key := old(At(connCnt, key)) - 1]
    {
      if connCnt == map[] {
        return;
      }
      connCnt := connCnt[key := At(connCnt, key) - 1];
    }

    /** checkAndIncConnCnt at the start of a dial: refused exactly when there is a limit and it is
        reached. */
    method StartDial(key: nat) returns (ok: bool)
      requires Valid()
      modifies this`connCnt, this`dials
      ensures Valid() && (ok <==> maxConns <= 0 || old(At(dials, key) + |For(unclosed, key)|) < maxConns)
      ensures dials == if ok then old(dials)[key := old(At(dials, key)) + 1] else old(dials)
    {
      hide Counted, Lists, Matched, Flags;
      CountOf(connCnt, dials, unclosed, maxConns, key);
      if !(maxConns > 0 && At(connCnt, key) >= maxConns) { DialStarts(key); }
      if maxConns > 0 {
        if key in connCnt && connCnt[key] >= maxConns {
          return false;
        }
        connCnt := connCnt[key := At(connCnt, key) + 1];
      }
      dials := dials[key := At(dials, key) + 1];
      return true;
    }

    lemma {:induction false} DialStarts(key: nat)
      requires Counted(connCnt, dials, unclosed, maxConns) && !(maxConns > 0 && At(connCnt, key) >= maxConns)
      ensures Counted(Bumped(connCnt, maxConns, key, 1), dials[key := At(dials, key) + 1], unclosed, maxConns)
    {
      CountOf(connCnt, dials, unclosed, maxConns, key);
      DialCounted(connCnt, dials, unclosed, maxConns, key, 1);
    }

    /** A dial ends without a connection. */
    method FailDial(key: nat)
      requires Valid() && At(dials, key) > 0
      modifies this`connCnt, this`dials
      ensures Valid() && dials == old(dials)[key := old(At(dials, key)) - 1]
    {
      hide Counted, Lists, Matched, Flags;
      CountOf(connCnt, dials, unclosed, maxConns, key);
      DialCounted(connCnt, dials, unclosed, maxConns, key, -1);
      ReleaseConnCnt(key);
      dials := dials[key := At(dials, key) - 1];
    }

    /** A dial ends with a new connection, which takes over its place in the count. */
    method FinishDial(key: nat) returns (c: PersistConn)
      requires Valid() && At(dials, key) > 0
      modifies this`dials, this`all, this`unclosed
      ensures Valid() && fresh(c) && c.key == key && !c.broken && all == old(all) + {c}
      ensures dials == old(dials)[key := old(At(dials, key)) - 1]
    {
      hide Counted, Matched;
      c := new PersistConn(key);
      ConnCounted(connCnt, dials, unclosed, maxConns, c);
      dials := dials[key := At(dials, key) - 1];
      all := all + {c};
      unclosed := unclosed + {c};
    }

    method MarkBroken(c: PersistConn)
      requires Valid() && c in all
      modifies c`broken
      ensures Valid() && c.broken
    {
      c.broken := true;
    }

    /** persistConn.close: the count is released once, however often it is called. */
    method Close(c: PersistConn)
      requires Valid() && c in all
      modifies c, this`connCnt, this`unclosed
      ensures Valid() && c.closed && c.broken && unclosed == old(unclosed) - {c}
      ensures connCnt == if old(c.closed) then old(connCnt) else Bumped(old(connCnt), maxConns, c.key, -1)
    {
      hide Counted, Lists, Matched;
      c.broken := true;
      if !c.closed {
        CloseCounted(connCnt, dials, unclosed, maxConns, c);
        CountOf(connCnt, dials, unclosed, maxConns, c.key);
        assert c in For(unclosed, c.key);
        c.closed := true;
        ReleaseConnCnt(c.key);
        unclosed := unclosed - {c};
      }
    }

    /** A put finds the idle list of its backend full; a cap of 0 stands for the default of 2. */
    predicate Full(key: nat)
      reads this
    {
      key in idle && |idle[key]| >= (if maxIdle == 0 then 2 else maxIdle)
    }

    /** putIdleConn. `waiting` is whether some request is waiting for a connection of this backend
        at this moment; it then takes the connection directly. A connection refused for want of
        keep-alive is closed, so is the oldest one of a full list, and no other. */
    method PutIdle(c: PersistConn, waiting: bool) returns (ok: bool)
      requires Valid() && c in all
      modifies this, all
      ensures Valid() && all == old(all) && dials == old(dials)
      ensures ok <==> !noKeepAlive && maxIdle >= 0 && !old(c.broken)
      ensures !ok ==> idle == old(idle) && ledger == old(ledger)
      ensures ok ==> ledger.entered == old(ledger.entered) + multiset{c}
      ensures ok && waiting ==> ledger.handed == old(ledger.handed) + multiset{c} && idle == old(idle)
      ensures ok && !waiting ==>
                var list := if c.key in old(idle) then old(idle)[c.key] else [];
                && ledger.handed == old(ledger.handed) && (old(Full(c.key)) ==> list != [])
                && idle == old(idle)[c.key := (if old(Full(c.key)) then list[1..] else list) + [c]]
      ensures unclosed == old(unclosed)
                - (if noKeepAlive || maxIdle < 0 then {c}
                   else if ok && !waiting && old(Full(c.key)) then {old(idle[c.key][0])} else {})
    {
      hide Counted, Matched, Flags, Lists;
      if noKeepAlive || maxIdle < 0 {
        Close(c);
        return false;
      }
      if c.broken {
        return false;
      }
      ok := true;
      if waiting {
        MatchedHandOver(ledger, idle, c);
        ledger := ledger.(entered := ledger.entered + multiset{c}, handed := ledger.handed + multiset{c});
      } else if (if c.key in idle then |idle[c.key]| else 0) >= Cap() {
        NeverEmpty();
        Evict(c);
      } else {
        Keep(c);
      }
    }

    lemma {:induction false} NeverEmpty()
      requires Valid()
      ensures forall k :: k in idle ==> idle[k] != []
    {
    }

    /** Room left: the connection joins the list of its backend. */
    method Keep(c: PersistConn)
      requires Valid() && c in all && (if c.key in idle then |idle[c.key]| else 0) < Cap()
      modifies this`idle, this`ledger
      ensures Valid() && ledger == old(ledger).(entered := old(ledger).entered + multiset{c})
      ensures idle == old(idle)[c.key := (if c.key in old(idle) then old(idle)[c.key] else []) + [c]]
    {
      hide Counted, Matched, Flags;
      MatchedPut(ledger, idle, c.key, c);
      ledger := ledger.(entered := ledger.entered + multiset{c});
      idle := idle[c.key := (if c.key in idle then idle[c.key] else []) + [c]];
    }

    /** The cap is reached: the oldest idle connection makes room and is closed. */
    method Evict(c: PersistConn)
      requires Valid() && c in all && c.key in idle && |idle[c.key]| >= Cap() && maxIdle >= 0
      modifies this, all
      ensures Valid() && all == old(all) && dials == old(dials) && old(idle)[c.key] != []
      ensures var oldest := old(idle)[c.key][0];
              && oldest.closed && unclosed == old(unclosed) - {oldest}
              && idle == old(idle)[c.key := old(idle)[c.key][1..] + [c]]
              && ledger == old(ledger).(entered := old(ledger).entered + multiset{c},
                                        evicted := old(ledger).evicted + multiset{oldest})
    {
      hide Counted, Matched, Flags;
      var list := idle[c.key];
      var oldest := list[0];
      MatchedEvict(ledger, idle, c.key, c);
      ledger := ledger.(entered := ledger.entered + multiset{c}, evicted := ledger.evicted + multiset{oldest});
      idle := idle[c.key := list[1..] + [c]];
      Close(oldest);
    }

    /** Take the newest idle connection of a backend off its list. */
    method Pop(key: nat) returns (c: PersistConn)
      requires Valid() && key in idle
      modifies this`idle, this`ledger
      ensures Valid() && c in all && c.key == key && old(idle)[key] != [] && c == old(idle)[key][|old(idle)[key]| - 1]
      ensures var list := old(idle)[key];
              idle == if |list| == 1 then old(idle) - {key} else old(idle)[key := list[..|list| - 1]]
      ensures ledger == if c.broken then old(ledger).(dropped := old(ledger).dropped + multiset{c})
                        else old(ledger).(handed := old(ledger).handed + multiset{c})
    {
      hide Counted, Matched, Flags;
      var list := idle[key];
      MatchedPop(ledger, idle, key);
      c := list[|list| - 1];
      idle := if |list| == 1 then idle - {key} else idle[key := list[..|list| - 1]];
      ledger := if c.broken then ledger.(dropped := ledger.dropped + multiset{c})
                else ledger.(handed := ledger.handed + multiset{c});
    }

    /** getIdleConn: the newest idle connection that is not broken; broken ones met on the way are
        dropped. The loop ends because every turn shortens the list. */
    method GetIdle(key: nat) returns (c: PersistConn?)
      requires Valid()
      modifies this`idle, this`ledger
      ensures Valid()
      ensures forall k :: k != key ==> (k in idle <==> k in old(idle)) && (k in idle ==> idle[k] == old(idle)[k])
      ensures c != null ==> c in all && c.key == key && !c.broken && ledger.handed == old(ledger.handed) + multiset{c}
      ensures c != null ==> key in old(idle) && Newest(old(idle)[key], c, if key in idle then idle[key] else [])
      ensures c == null ==> key !in idle && ledger.handed == old(ledger.handed)
      ensures c == null ==> key !in old(idle) || forall i :: 0 <= i < |old(idle)[key]| ==> old(idle)[key][i].broken
    {
      hide Valid;
      c := null;
      while key in idle
        invariant Valid() && ledger.handed == old(ledger.handed)
        invariant forall k :: k != key ==> (k in idle <==> k in old(idle)) && (k in idle ==> idle[k] == old(idle)[k])
        invariant key in idle ==> key in old(idle) && idle[key] <= old(idle)[key]
        invariant key in old(idle) ==>
          forall i :: (if key in idle then |idle[key]| else 0) <= i < |old(idle)[key]| ==> old(idle)[key][i].broken
        decreases if key in idle then |idle[key]| else 0
      {
        var d := Pop(key);
        if !d.broken {
          return d;
        }
      }
    }

    /** CloseIdleConnections: every idle list is taken at once and its connections closed. */
    method CloseIdleConnections()
      requires Valid()
      modifies this, all
      ensures Valid() && idle == map[] && all == old(all) && dials == old(dials)
      ensures ledger == old(ledger).(bulk := old(ledger).bulk + Stock(old(idle)))
      ensures forall k, i :: k in old(idle) && 0 <= i < |old(idle)[k]| ==> old(idle)[k][i].closed
    {
      hide Counted, Matched, Flags, Stock;
      var m := idle;
      MatchedBulk(ledger, idle);
      ledger := ledger.(bulk := ledger.bulk + Stock(idle));
      idle := map[];
      ghost var taken := m;
      while m != map[]
        invariant Valid() && idle == map[] && all == old(all) && dials == old(dials)
        invariant ledger == old(ledger).(bulk := old(ledger).bulk + Stock(taken))
        invariant m.Keys <= taken.Keys && (forall k :: k in m ==> m[k] == taken[k])
        invariant forall k, i :: k in taken && k !in m && 0 <= i < |taken[k]| ==> taken[k][i].closed
        decreases |m|
      {
        var k :| k in m;
        CloseList(m[k]);
        m := m - {k};
      }
    }

    method CloseList(conns: seq<PersistConn>)
      requires Valid() && (forall i :: 0 <= i < |conns| ==> conns[i] in all)
      modifies this`connCnt, this`unclosed, all
      ensures Valid() && (forall i :: 0 <= i < |conns| ==> conns[i].closed)
      ensures forall c :: c in all && old(c.closed) ==> c.closed
    {
      hide Valid;
      for i := 0 to |conns|
        invariant Valid() && (forall j :: 0 <= j < i ==> conns[j].closed)
        invariant forall c :: c in all && old(c.closed) ==> c.closed
      {
        Close(conns[i]);
      }
    }
  }

  lemma {:induction false} MatchedBulk(l: Ledger, idle: map<nat, seq<PersistConn>>)
    requires Matched(l, idle)
    ensures Matched(l.(bulk := l.bulk + Stock(idle)), map[])
  {
  }

  lemma {:induction false} MatchedHandOver(l: Ledger, idle: map<nat, seq<PersistConn>>, c: PersistConn)
    requires Matched(l, idle)
    ensures Matched(l.(entered := l.entered + multiset{c}, handed := l.handed + multiset{c}), idle)
  {
    hide Stock;
  }
}
