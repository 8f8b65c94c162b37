/** Choosing and rotating upstream API keys (bfe_server/reverseproxy.go), without session affinity. */
module KeyRotation {

  // -------------------------------------------------------------------------- weighted choice

  function Sum(ws: seq<nat>): nat { if ws == [] then 0 else Sum(ws[..|ws| - 1]) + ws[|ws| - 1] }

  lemma {:induction false} SumPrefix(ws: seq<nat>, i: nat)
    requires i < |ws|
    ensures Sum(ws[..i + 1]) == Sum(ws[..i]) + ws[i]
    ensures Sum(ws[..i + 1]) <= Sum(ws)
    decreases |ws| - i
  {
    assert ws[..i + 1][..i] == ws[..i];
    if i + 1 < |ws| { SumPrefix(ws, i + 1); } else { assert ws[..i + 1] == ws; }
  }

  lemma {:induction false} SumMonotone(ws: seq<nat>, i: nat, j: nat)
    requires i <= j <= |ws|
    ensures Sum(ws[..i]) <= Sum(ws[..j])
    decreases j - i
  {
    if i < j {
      SumPrefix(ws, j - 1);
      SumMonotone(ws, i, j - 1);
    }
  }

  /** selectAIKey for a draw of the random source: the key whose weight interval the draw falls into;
      -1 when all weights are zero. */
  method SelectAIKey(ws: seq<nat>, draw: nat) returns (i: int)
    requires ws != [] && (Sum(ws) > 0 ==> draw < Sum(ws))
    ensures -1 <= i < |ws|
    ensures i == -1 <==> |ws| > 1 && Sum(ws) == 0
    ensures i >= 0 && |ws| > 1 ==> Selects(ws, i, draw)
  {
    if |ws| == 1 {
      return 0;
    }
    var total := 0;
    for k := 0 to |ws|
      invariant total == Sum(ws[..k])
    {
      SumPrefix(ws, k);
      total := total + ws[k];
    }
    assert ws[..|ws|] == ws;
    if total <= 0 {
      return -1;
    }
    var sum := 0;
    for k := 0 to |ws|
      invariant sum == Sum(ws[..k]) <= draw
    {
      SumPrefix(ws, k);
      sum := sum + ws[k];
      if draw < sum {
        return k;
      }
    }
    return |ws| - 1;
  }

  predicate Selects(ws: seq<nat>, i: nat, draw: nat)
    requires i < |ws|
  {
    Sum(ws[..i]) <= draw < Sum(ws[..i + 1])
  }

  /** The draws that select key i. */
  ghost function DrawsFor(ws: seq<nat>, i: nat): set<nat>
    requires i < |ws|
  {
    set r | 0 <= r < Sum(ws) && Selects(ws, i, r)
  }

  ghost function Interval(lo: nat, hi: nat): (s: set<nat>)
    requires lo <= hi
    ensures |s| == hi - lo && forall r :: r in s <==> lo <= r < hi
  {
    if lo == hi then {} else Interval(lo, hi - 1) + {hi - 1}
  }

  /** Key i is selected for exactly weight_i of the total draws, and no draw selects two keys. */
  lemma {:induction false} WeightedFairly(ws: seq<nat>, i: nat, j: nat)
    requires i < |ws| && j < |ws|
    ensures |DrawsFor(ws, i)| == ws[i]
    ensures i != j ==> DrawsFor(ws, i) !! DrawsFor(ws, j)
  {
    SumPrefix(ws, i);
    SumPrefix(ws, j);
    assert DrawsFor(ws, i) == Interval(Sum(ws[..i]), Sum(ws[..i + 1]));
    if i < j { SumMonotone(ws, i + 1, j); }
    if j < i { SumMonotone(ws, j + 1, i); }
  }

  // ------------------------------------------------------------------------------ one choice

  lemma {:induction false} OnlyKey(ws: seq<nat>, draw: nat)
    requires |ws| == 1 && draw < Sum(ws)
    ensures Selects(ws, 0, draw)
  {
    assert ws[..0] == [] && ws[..1] == ws;
  }

  /** The keys that may be used at all: positive weight, not rejected by the upstream. */
  predicate Live(weights: seq<nat>, dead: set<nat>, k: nat) { k < |weights| && weights[k] > 0 && k !in dead }

  ghost predicate AnyLive(weights: seq<nat>, dead: set<nat>) { exists k :: Live(weights, dead, k) }

  /** Indices selected by a filter, in order, with their weights. */
  ghost predicate Lists(weights: seq<nat>, idx: seq<nat>, ws: seq<nat>) {
    && |idx| == |ws|
    && (forall j :: 0 <= j < |idx| ==> idx[j] < |weights| && ws[j] == weights[idx[j]] && ws[j] > 0)
  }

  lemma {:induction false} SumPositive(ws: seq<nat>)
    requires ws != [] && (forall j :: 0 <= j < |ws| ==> ws[j] > 0)
    ensures Sum(ws) > 0
  {
  }

  /** The keys a choice is made from, in order: the live keys outside `used`, or all live keys if that
      leaves none. */
  ghost function Candidates(weights: seq<nat>, dead: set<nat>, used: set<nat>): seq<nat> {
    var unused := LiveBelow(weights, dead + used, |weights|);
    if unused == [] then LiveBelow(weights, dead, |weights|) else unused
  }

  ghost function LiveBelow(weights: seq<nat>, excluded: set<nat>, n: nat): (r: seq<nat>)
    requires n <= |weights|
    ensures forall j :: 0 <= j < |r| ==> r[j] < |weights|
  {
    if n == 0 then [] else
      LiveBelow(weights, excluded, n - 1) + (if Live(weights, excluded, n - 1) then [n - 1] else [])
  }

  lemma {:induction false} LiveBelowIff(weights: seq<nat>, excluded: set<nat>, n: nat, k: nat)
    requires n <= |weights|
    ensures k in LiveBelow(weights, excluded, n) <==> k < n && Live(weights, excluded, k)
  {
    if n > 0 { LiveBelowIff(weights, excluded, n - 1, k); }
  }

  ghost function WeightsOf(weights: seq<nat>, keys: seq<nat>): seq<nat>
    requires forall j :: 0 <= j < |keys| ==> keys[j] < |weights|
  {
    seq(|keys|, j requires 0 <= j < |keys| => weights[keys[j]])
  }

  ghost function Without(keys: seq<nat>, used: set<nat>): seq<nat> {
    if keys == [] then [] else
      var k := keys[|keys| - 1];
      Without(keys[..|keys| - 1], used) + (if k in used then [] else [k])
  }

  lemma {:induction false} WithoutLast(keys: seq<nat>, k: nat, used: set<nat>)
    ensures Without(keys + [k], used) == Without(keys, used) + (if k in used then [] else [k])
  {
    assert (keys + [k])[..|keys|] == keys;
  }

  lemma {:induction false} WithoutLive(weights: seq<nat>, dead: set<nat>, used: set<nat>, n: nat)
    requires n <= |weights|
    ensures Without(LiveBelow(weights, dead, n), used) == LiveBelow(weights, dead + used, n)
  {
    if n > 0 {
      WithoutLive(weights, dead, used, n - 1);
      var below := LiveBelow(weights, dead, n - 1);
      if Live(weights, dead, n - 1) { WithoutLast(below, n - 1, used); } else { assert below + [] == below; }
    }
  }

  lemma {:induction false} WithoutIff(keys: seq<nat>, used: set<nat>)
    ensures forall k :: k in Without(keys, used) <==> k in keys && k !in used
  {
    if keys != [] {
      var n := |keys| - 1;
      WithoutIff(keys[..n], used);
      assert forall k :: k in keys <==> k in keys[..n] || k == keys[n] by { assert keys == keys[..n] + [keys[n]]; }
    }
  }

  lemma {:induction false} CandidatesAre(weights: seq<nat>, dead: set<nat>, used: set<nat>, keys: seq<nat>,
                                         ws: seq<nat>)
    requires var all := LiveBelow(weights, dead, |weights|);
             keys == (if Without(all, used) == [] then all else Without(all, used))
    requires keys != [] && Lists(weights, keys, ws)
    ensures keys == Candidates(weights, dead, used) && ws == WeightsOf(weights, keys) && Sum(ws) > 0
  {
    hide LiveBelow, Without;
    WithoutLive(weights, dead, used, |weights|);
    SumPositive(ws);
  }

  /** The draw rnd picks key i among the candidates: i's weight interval holds it. */
  ghost predicate Drawn(weights: seq<nat>, dead: set<nat>, used: set<nat>, rnd: nat, i: nat) {
    var keys := Candidates(weights, dead, used);
    var ws := WeightsOf(weights, keys);
    Sum(ws) > 0 && exists j :: 0 <= j < |keys| && keys[j] == i && Selects(ws, j, rnd % Sum(ws))
  }

  /** Exactly one candidate is drawn. */
  lemma {:induction false} DrawnOnce(weights: seq<nat>, dead: set<nat>, used: set<nat>, rnd: nat, i: nat, j: nat)
    requires Drawn(weights, dead, used, rnd, i) && Drawn(weights, dead, used, rnd, j)
    ensures i == j
  {
    var keys := Candidates(weights, dead, used);
    var ws := WeightsOf(weights, keys);
    var draw := rnd % Sum(ws);
    var a :| 0 <= a < |keys| && keys[a] == i && Selects(ws, a, draw);
    var b :| 0 <= b < |keys| && keys[b] == j && Selects(ws, b, draw);
    SumMonotone(ws, if a < b then a + 1 else b, if a < b then b else a);
    if b < a { SumMonotone(ws, b + 1, a); }
  }

  /** The first loop of chooseNextAIKey. */
  method Eligible(weights: seq<nat>, dead: set<nat>) returns (idx: seq<nat>, ws: seq<nat>)
    ensures Lists(weights, idx, ws) && idx == LiveBelow(weights, dead, |weights|)
    ensures forall k: nat :: k in idx <==> Live(weights, dead, k)
  {
    idx, ws := [], [];
    for k := 0 to |weights|
      invariant Lists(weights, idx, ws) && idx == LiveBelow(weights, dead, k)
    {
      if weights[k] == 0 || k in dead {
        continue;
      }
      idx, ws := idx + [k], ws + [weights[k]];
    }
    forall k: nat
      ensures k in idx <==> Live(weights, dead, k)
    {
      LiveBelowIff(weights, dead, |weights|, k);
    }
  }

  /** The second loop: without the used ones. */
  method Unused(weights: seq<nat>, used: set<nat>, idx: seq<nat>, ws: seq<nat>) returns (idx': seq<nat>, ws': seq<nat>)
    requires Lists(weights, idx, ws)
    ensures Lists(weights, idx', ws') && idx' == Without(idx, used)
  {
    idx', ws' := [], [];
    for j := 0 to |idx|
      invariant Lists(weights, idx', ws') && idx' == Without(idx[..j], used)
    {
      assert idx[..j + 1][..j] == idx[..j];
      if idx[j] in used {
        continue;
      }
      idx', ws' := idx' + [idx[j]], ws' + [ws[j]];
    }
    assert idx[..|idx|] == idx;
  }

  class KeyState {
    var used: set<nat>
    var dead: set<nat>

    constructor ()
      ensures used == {} && dead == {}
    {
      used, dead := {}, {};
    }

    /** chooseNextAIKey: fails exactly when no live key remains; a used key is chosen only when every
        live key is used, and then the used set is cleared. */
    method ChooseNext(weights: seq<nat>, rnd: nat) returns (i: int)
      modifies this`used
      ensures i == -1 <==> !AnyLive(weights, dead)
      ensures i == -1 ==> used == old(used)
      ensures i != -1 ==> 0 <= i && Live(weights, dead, i)
      ensures i != -1 && (exists k :: Live(weights, dead, k) && k !in old(used)) ==>
                i !in old(used) && used == old(used)
      ensures i != -1 && !(exists k :: Live(weights, dead, k) && k !in old(used)) ==> used == {}
      ensures i != -1 ==> Drawn(weights, dead, old(used), rnd, i)
    {
      hide Sum, Candidates, LiveBelow, Without, WeightsOf, Live, Selects;
      var indices, eligible := Eligible(weights, dead);
      if |eligible| == 0 {
        assert forall k :: Live(weights, dead, k) ==> k in indices;
        return -1;
      }
      assert indices[0] in indices;
      var filteredIdx, filtered := Unused(weights, used, indices, eligible);
      assert forall k :: k in filteredIdx <==> Live(weights, dead, k) && k !in used by {
        WithoutIff(indices, used);
      }
      if |filtered| == 0 {
        used := {};
        filtered, filteredIdx := eligible, indices;
      } else {
        assert filteredIdx[0] in filteredIdx;
      }
      CandidatesAre(weights, dead, old(used), filteredIdx, filtered);
      var s := SelectAIKey(filtered, rnd % Sum(filtered));
      if |filtered| == 1 { OnlyKey(filtered, rnd % Sum(filtered)); }
      assert filteredIdx[s] in filteredIdx;
      i := filteredIdx[s];
    }
  }

  // ---------------------------------------------------------------------------- one request

  /** How one forward ended: the status code (0 without a response), whether the forward itself
      failed, and whether the gateway itself rejected the request (its own rate limit, or the body
      policy), which ends the rotation. */
  datatype Outcome = Outcome(status: nat, failed: bool, rejected: bool) {
    predicate Succeeds() { !failed && status < 400 }
    predicate RateLimited() { status == 429 }
    predicate AuthFailed() { status == 401 || status == 402 || status == 403 }
    predicate Transient() { status >= 500 || failed }
  }

  datatype Forward = Forward(key: nat, outcome: Outcome)

  predicate Ends(o: Outcome) {
    o.Succeeds() || o.rejected || (!o.RateLimited() && !o.AuthFailed() && !o.Transient())
  }

  /** Every key that can still be used was answered with 429 at position `since` or later. */
  ghost predicate AllTried(weights: seq<nat>, dead: set<nat>, log: seq<Forward>, since: nat) {
    forall k :: Live(weights, dead, k) ==> Limited(log, since, k)
  }

  ghost predicate Limited(log: seq<Forward>, since: nat, k: nat) {
    exists m :: since <= m < |log| && log[m].key == k && log[m].outcome.RateLimited()
  }

  /** After these forwards the next key is chosen anew, not kept. */
  predicate ChoosesNext(log: seq<Forward>) {
    log == [] || log[|log| - 1].outcome.RateLimited() || log[|log| - 1].outcome.AuthFailed()
  }

  /** Where the round of the next forward starts: a round is over when a key is to be chosen and every
      key that can still be used was answered with 429 in it. */
  ghost function RoundStart(weights: seq<nat>, log: seq<Forward>): (r: nat)
    ensures r <= |log|
  {
    if log == [] then 0 else
      var r := RoundStart(weights, log[..|log| - 1]);
      if ChoosesNext(log) && AllTried(weights, DeadAfter(log), log, r) then |log| else r
  }

  /** The promises about the forwards made so far: no key is used again after 401, 402 or 403, none that
      was answered with 429 is used again in the same round, and nothing follows a final answer. */
  ghost predicate Rotates(weights: seq<nat>, log: seq<Forward>) {
    && (forall i, j :: 0 <= i < j < |log| ==>
          log[i].outcome.AuthFailed() ==> log[j].key != log[i].key)
    && (forall i, j :: 0 <= i < j < |log| && RoundStart(weights, log[..j]) <= i ==>
          log[i].outcome.RateLimited() ==> log[j].key != log[i].key)
    && (forall i :: 0 <= i < |log| - 1 ==> !Ends(log[i].outcome))
  }

  /** The keys the upstream rejected so far. */
  ghost function DeadAfter(log: seq<Forward>): set<nat> {
    if log == [] then {} else
      var f := log[|log| - 1];
      DeadAfter(log[..|log| - 1]) + (if f.outcome.AuthFailed() then {f.key} else {})
  }

  lemma {:induction false} DeadIff(log: seq<Forward>, k: nat)
    ensures k in DeadAfter(log) <==> exists i :: 0 <= i < |log| && log[i].key == k && log[i].outcome.AuthFailed()
  {
    if log != [] {
      var head := log[..|log| - 1];
      DeadIff(head, k);
      if i :| 0 <= i < |log| && log[i].key == k && log[i].outcome.AuthFailed() {
        if i < |head| { assert head[i] == log[i]; }
      }
      if k in DeadAfter(head) {
        var i :| 0 <= i < |head| && head[i].key == k && head[i].outcome.AuthFailed();
        assert log[i] == head[i];
      }
    }
  }

  lemma {:induction false} DeadGrows(log: seq<Forward>, j: nat)
    requires j <= |log|
    ensures DeadAfter(log[..j]) <= DeadAfter(log)
    decreases |log| - j
  {
    if j < |log| {
      DeadGrows(log[..|log| - 1], j);
      assert log[..|log| - 1][..j] == log[..j];
    } else {
      assert log[..j] == log;
    }
  }

  /** The round of a later forward starts no earlier, and if it is another round then between the two
      starts every key that can still be used was answered with 429. */
  lemma {:induction false} RoundsAdvance(weights: seq<nat>, log: seq<Forward>, i: nat)
    requires i <= |log|
    ensures var (a, b) := (RoundStart(weights, log[..i]), RoundStart(weights, log));
            a <= b && (a < b ==> b > i - 1 && AllTried(weights, DeadAfter(log), log, a))
    decreases |log| - i
  {
    hide Live;
    if i == |log| {
      assert log[..i] == log;
    } else {
      var n := |log| - 1;
      var head := log[..n];
      assert head[..i] == log[..i];
      RoundsAdvance(weights, head, i);
      DeadGrows(log, n);
      var (a, b) := (RoundStart(weights, log[..i]), RoundStart(weights, log));
      if a < RoundStart(weights, head) { TriedLonger(weights, DeadAfter(head), DeadAfter(log), log, n, a); }
    }
  }

  lemma {:induction false} TriedLonger(weights: seq<nat>, dead: set<nat>, dead': set<nat>, log: seq<Forward>, n: nat,
                                       since: nat)
    requires n <= |log| && dead <= dead' && AllTried(weights, dead, log[..n], since)
    ensures AllTried(weights, dead', log, since)
  {
    forall k | Live(weights, dead', k)
      ensures Limited(log, since, k)
    {
      assert Live(weights, dead, k);
      var m :| since <= m < n && log[..n][m].key == k && log[..n][m].outcome.RateLimited();
      assert log[m] == log[..n][m];
    }
  }

  /** A key that was answered with 429 is used again only after every key that can still be used was
      answered with 429, counted from the start of the round in which it was. */
  lemma {:induction false} AgainOnlyWhenAllTried(weights: seq<nat>, log: seq<Forward>, i: nat, j: nat)
    requires Rotates(weights, log) && i < j < |log| && log[i].outcome.RateLimited() && log[j].key == log[i].key
    ensures i < RoundStart(weights, log[..j])
    ensures AllTried(weights, DeadAfter(log[..j]), log[..j], RoundStart(weights, log[..i]))
  {
    hide AllTried;
    assert log[..j][..i] == log[..i];
    RoundsAdvance(weights, log[..j], i);
  }

  /** What the retry loop keeps: the dead set is exactly the keys that answered 401, 402 or 403, the used
      set exactly those that answered 429 from `since` on. */
  ghost predicate Tracks(used: set<nat>, dead: set<nat>, log: seq<Forward>, since: nat) {
    dead == DeadAfter(log) && forall k :: k in used <==> Limited(log, since, k)
  }

  /** The round the last forward belonged to. */
  ghost function Current(weights: seq<nat>, log: seq<Forward>): nat {
    if log == [] then 0 else RoundStart(weights, log[..|log| - 1])
  }

  /** The keys answered with 429 in that round. */
  ghost function UsedAfter(weights: seq<nat>, log: seq<Forward>): set<nat> {
    set m | Current(weights, log) <= m < |log| && log[m].outcome.RateLimited() :: log[m].key
  }

  lemma {:induction false} TracksUsed(used: set<nat>, dead: set<nat>, weights: seq<nat>, log: seq<Forward>)
    requires Tracks(used, dead, log, Current(weights, log))
    ensures used == UsedAfter(weights, log)
  {
    hide Current;
    assert forall k: nat :: k in used <==> Limited(log, Current(weights, log), k);
    assert forall k: nat :: k in UsedAfter(weights, log) <==> Limited(log, Current(weights, log), k);
  }

  /** Choosing a key: if some usable key is unused the round goes on, otherwise the used set is cleared
      and a new round begins. */
  lemma {:induction false} FreshKey(weights: seq<nat>, used: set<nat>, dead: set<nat>, used': set<nat>,
                                    log: seq<Forward>, key: nat)
    requires Tracks(used, dead, log, Current(weights, log)) && ChoosesNext(log) && Live(weights, dead, key)
    requires (exists k :: Live(weights, dead, k) && k !in used) ==> key !in used && used' == used
    requires !(exists k :: Live(weights, dead, k) && k !in used) ==> used' == {}
    ensures Tracks(used', dead, log, RoundStart(weights, log)) && key !in used'
  {
    hide Live, DeadAfter;
    var since := Current(weights, log);
    if k :| Live(weights, dead, k) && k !in used {
      assert !AllTried(weights, dead, log, since);
      assert RoundStart(weights, log) == since;
    } else {
      assert AllTried(weights, dead, log, since);
      assert log != [];
      assert RoundStart(weights, log) == |log|;
    }
  }

  /** A key kept after a transient failure stays in the round. */
  lemma {:induction false} KeptKey(weights: seq<nat>, used: set<nat>, dead: set<nat>, log: seq<Forward>)
    requires log != [] && !ChoosesNext(log) && Tracks(used, dead, log, Current(weights, log)) && Rotates(weights, log)
    requires Live(weights, DeadAfter(log[..|log| - 1]), log[|log| - 1].key)
    ensures Tracks(used, dead, log, RoundStart(weights, log))
    ensures var key := log[|log| - 1].key; key !in used && Live(weights, DeadAfter(log), key)
  {
    hide Live, AllTried;
    var n := |log| - 1;
    assert DeadAfter(log) == DeadAfter(log[..n]);
    assert RoundStart(weights, log) == RoundStart(weights, log[..n]);
    assert !Limited(log, Current(weights, log), log[n].key);
  }

  /** One more forward, with a key not used in its round. */
  lemma {:induction false} ForwardRotates(weights: seq<nat>, used: set<nat>, dead: set<nat>, log: seq<Forward>,
                                          f: Forward)
    requires Rotates(weights, log) && (log != [] ==> !Ends(log[|log| - 1].outcome))
    requires Tracks(used, dead, log, RoundStart(weights, log)) && Live(weights, dead, f.key) && f.key !in used
    ensures Rotates(weights, log + [f])
  {
    hide RoundStart;
    var log' := log + [f];
    assert log'[..|log|] == log;
    forall i, j | 0 <= i < j < |log'| && log'[i].outcome.AuthFailed()
      ensures log'[j].key != log'[i].key
    {
      if j == |log| { DeadIff(log, f.key); }
    }
    forall i, j | 0 <= i < j < |log'| && RoundStart(weights, log'[..j]) <= i && log'[i].outcome.RateLimited()
      ensures log'[j].key != log'[i].key
    {
      assert log'[..j] == log[..j];
      if j == |log| { assert Limited(log, RoundStart(weights, log), log'[i].key); }
    }
  }

  /** The bookkeeping after a forward. */
  lemma {:induction false} ForwardTracks(weights: seq<nat>, used: set<nat>, dead: set<nat>, log: seq<Forward>,
                                         f: Forward)
    requires Tracks(used, dead, log, RoundStart(weights, log))
    ensures var o := f.outcome;
            Tracks(if o.RateLimited() then used + {f.key} else used,
                   if o.AuthFailed() then dead + {f.key} else dead, log + [f], Current(weights, log + [f]))
  {
    hide RoundStart;
    var log' := log + [f];
    assert log'[..|log|] == log;
    var since := RoundStart(weights, log);
    forall k: nat
      ensures Limited(log', since, k) <==> Limited(log, since, k) || (f.outcome.RateLimited() && f.key == k)
    {
      if Limited(log', since, k) {
        var m :| since <= m < |log'| && log'[m].key == k && log'[m].outcome.RateLimited();
        if m < |log| { assert log[m] == log'[m]; }
      }
      if Limited(log, since, k) {
        var m :| since <= m < |log| && log[m].key == k && log[m].outcome.RateLimited();
        assert log'[m] == log[m];
      }
      if f.outcome.RateLimited() && f.key == k { assert since <= |log| && log'[|log|] == f; }
    }
  }

  /** The key of the next forward: the last one again after a transient failure, else a chosen one. */
  method NextKey(state: KeyState, keepKey: bool, last: nat, weights: seq<nat>, rnd: nat, ghost log: seq<Forward>)
    returns (i: int)
    requires Rotates(weights, log) && AlwaysLive(weights, log)
    requires Tracks(state.used, state.dead, log, Current(weights, log))
    requires (keepKey <==> !ChoosesNext(log)) && (keepKey ==> log != [] && last == log[|log| - 1].key)
    modifies state`used
    ensures i == -1 <==> !AnyLive(weights, DeadAfter(log))
    ensures keepKey ==> i == last
    ensures i != -1 && !keepKey ==> 0 <= i && Drawn(weights, DeadAfter(log), UsedAfter(weights, log), rnd, i)
    ensures i != -1 ==> 0 <= i && i !in state.used && Live(weights, DeadAfter(log), i) && state.dead == DeadAfter(log)
    ensures i != -1 ==> Tracks(state.used, state.dead, log, RoundStart(weights, log))
  {
    hide Rotates, Tracks, AllTried, Live, AlwaysLive, DeadAfter, RoundStart, Current, ChoosesNext, UsedAfter, Drawn;
    TracksUsed(state.used, state.dead, weights, log);
    TracksDead(state.used, state.dead, log, Current(weights, log));
    if keepKey {
      LastLive(weights, log);
      KeptKey(weights, state.used, state.dead, log);
      return last;
    }
    ghost var used := state.used;
    i := state.ChooseNext(weights, rnd);
    if i != -1 { FreshKey(weights, used, state.dead, state.used, log, i); }
  }

  /** How the forwards follow each other: the body was rewound before each but the first, the key is drawn
      by weight, after a transient failure it is the same again. */
  ghost predicate Continues(weights: seq<nat>, rnds: seq<nat>, rewinds: seq<bool>, log: seq<Forward>) {
    && |log| <= |rnds| && |log| <= |rewinds|
    && (forall j :: 0 <= j < |log| ==> NextIs(weights, rnds[j], log[..j], log[j].key))
    && (forall j :: 0 < j < |log| ==> rewinds[j])
  }

  ghost predicate NextIs(weights: seq<nat>, rnd: nat, log: seq<Forward>, key: nat) {
    if ChoosesNext(log) then Drawn(weights, DeadAfter(log), UsedAfter(weights, log), rnd, key)
    else key == log[|log| - 1].key
  }

  /** The last forward calls for another one, and the body could be rewound for it. */
  predicate GoesOn(log: seq<Forward>, rewinds: seq<bool>) {
    log == [] || (!Ends(log[|log| - 1].outcome) && |log| < |rewinds| && rewinds[|log|])
  }

  /** A request ends with a final answer: no failure of the forward and a status under 500 other than
      401, 402, 403 and 429, or a rejection by the gateway itself. */
  lemma {:induction false} EndsIff(o: Outcome)
    ensures Ends(o) <==> o.rejected || (!o.failed && o.status < 500 && o.status !in {401, 402, 403, 429})
  {
  }

  /** The answers, draws and rewinds determine the forwards: of two logs that follow the rules one is the
      beginning of the other. */
  lemma {:induction false} OnlyOneWay(weights: seq<nat>, rnds: seq<nat>, rewinds: seq<bool>, outcomes: seq<Outcome>,
                                      a: seq<Forward>, b: seq<Forward>)
    requires Continues(weights, rnds, rewinds, a) && Continues(weights, rnds, rewinds, b) && |a| <= |b| <= |outcomes|
    requires forall j :: 0 <= j < |a| ==> a[j].outcome == outcomes[j]
    requires forall j :: 0 <= j < |b| ==> b[j].outcome == outcomes[j]
    ensures a <= b
    decreases |a|
  {
    hide NextIs, Continues;
    if a != [] {
      var n := |a| - 1;
      ContinuesBefore(weights, rnds, rewinds, a, n);
      ContinuesBefore(weights, rnds, rewinds, b, n);
      OnlyOneWay(weights, rnds, rewinds, outcomes, a[..n], b);
      assert a[..n] == b[..n];
      SameNext(weights, rnds[n], a[..n], a[n].key, b[n].key);
      assert a == a[..n] + [a[n]] && a[n] == b[n];
    }
  }

  lemma {:induction false} ContinuesBefore(weights: seq<nat>, rnds: seq<nat>, rewinds: seq<bool>, log: seq<Forward>,
                                           n: nat)
    requires Continues(weights, rnds, rewinds, log) && n < |log|
    ensures Continues(weights, rnds, rewinds, log[..n])
    ensures n < |rnds| && NextIs(weights, rnds[n], log[..n], log[n].key)
  {
    hide NextIs;
    assert forall j :: 0 <= j <= n ==> log[..n][..j] == log[..j];
  }

  lemma {:induction false} SameNext(weights: seq<nat>, rnd: nat, log: seq<Forward>, i: nat, j: nat)
    requires NextIs(weights, rnd, log, i) && NextIs(weights, rnd, log, j)
    ensures i == j
  {
    hide Drawn, DeadAfter, UsedAfter;
    if ChoosesNext(log) { DrawnOnce(weights, DeadAfter(log), UsedAfter(weights, log), rnd, i, j); }
  }

  /** The retry loop of aiClusterInvoke. It stops exactly when the retries are used up, an answer is final,
      the body cannot be rewound or no key can be used. It forwards at most maxRetries+1 times; never again with a key
      that answered 401, 402 or 403; with a key that answered 429 only in a later round, after every
      key that can still be used was answered with 429; and it gives up for want of a key only when
      no key can be used. */
  method AiClusterInvoke(weights: seq<nat>, maxRetries: nat, outcomes: seq<Outcome>, rnds: seq<nat>, rewinds: seq<bool>)
    returns (log: seq<Forward>, exhausted: bool)
    requires |outcomes| > maxRetries && |rnds| > maxRetries && |rewinds| > maxRetries
    ensures |log| <= maxRetries + 1 && Rotates(weights, log)
    ensures AlwaysLive(weights, log) && (forall j :: 0 <= j < |log| ==> log[j].outcome == outcomes[j])
    ensures Continues(weights, rnds, rewinds, log)
    ensures exhausted <==> |log| <= maxRetries && GoesOn(log, rewinds) && !AnyLive(weights, DeadAfter(log))
    ensures !exhausted ==> log != [] && (|log| == maxRetries + 1 || !GoesOn(log, rewinds))
  {
    hide Rotates, Tracks, AllTried, Live, AnyLive, AlwaysLive, DeadAfter, RoundStart, Current, UsedAfter, Continues,
         Drawn, NextIs, ChoosesNext;
    var state := new KeyState();
    var keepKey := false;
    var key: nat := 0;
    log := [];
    NothingYet(weights);
    ChoosesIff([], Forward(0, Outcome(0, false, false)));
    assert Continues(weights, rnds, rewinds, log) by { NoForward(weights, rnds, rewinds); }
    for retry := 0 to maxRetries + 1
      invariant |log| == retry && fresh(state)
      invariant Rotates(weights, log) && Tracks(state.used, state.dead, log, Current(weights, log))
      invariant log != [] ==> !Ends(log[|log| - 1].outcome)
      invariant Continues(weights, rnds, rewinds, log)
      invariant keepKey <==> !ChoosesNext(log)
      invariant keepKey ==> key == log[|log| - 1].key
      invariant AlwaysLive(weights, log) && (forall j :: 0 <= j < |log| ==> log[j].outcome == outcomes[j])
    {
      if retry > 0 && !rewinds[retry] {
        return log, false;
      }
      var i := NextKey(state, keepKey, key, weights, rnds[retry], log);
      if i == -1 {
        return log, true;
      }
      key := i;
      keepKey := false;
      var o := outcomes[retry];
      var f := Forward(key, o);
      ForwardRotates(weights, state.used, state.dead, log, f);
      ForwardTracks(weights, state.used, state.dead, log, f);
      StaysLive(weights, log, f);
      NextFits(weights, rnds[retry], log, key);
      OneMore(weights, rnds, rewinds, log, f);
      ChoosesIff(log, f);
      log := log + [f];
      if Ends(o) {
        return log, false;
      }
      if o.status == 429 {
        state.used := state.used + {key};
      } else if o.status == 401 || o.status == 402 || o.status == 403 {
        state.dead := state.dead + {key};
      } else {
        keepKey := true;
      }
    }
    return log, false;
  }

  /** Every forward used a key that had positive weight and was not rejected before. */
  ghost predicate AlwaysLive(weights: seq<nat>, log: seq<Forward>) {
    forall j :: 0 <= j < |log| ==> Live(weights, DeadAfter(log[..j]), log[j].key)
  }

  lemma {:induction false} NextFits(weights: seq<nat>, rnd: nat, log: seq<Forward>, key: nat)
    requires ChoosesNext(log) ==> Drawn(weights, DeadAfter(log), UsedAfter(weights, log), rnd, key)
    requires !ChoosesNext(log) && log != [] ==> key == log[|log| - 1].key
    ensures NextIs(weights, rnd, log, key)
  {
    hide Drawn, DeadAfter, UsedAfter;
  }

  lemma {:induction false} ChoosesIff(log: seq<Forward>, f: Forward)
    ensures ChoosesNext([])
    ensures ChoosesNext(log + [f]) <==> f.outcome.RateLimited() || f.outcome.AuthFailed()
  {
  }

  lemma {:induction false} NoForward(weights: seq<nat>, rnds: seq<nat>, rewinds: seq<bool>)
    ensures Continues(weights, rnds, rewinds, [])
  {
  }

  lemma {:induction false} OneMore(weights: seq<nat>, rnds: seq<nat>, rewinds: seq<bool>, log: seq<Forward>, f: Forward)
    requires Continues(weights, rnds, rewinds, log) && |log| < |rnds| && |log| < |rewinds|
    requires NextIs(weights, rnds[|log|], log, f.key) && (log != [] ==> rewinds[|log|])
    ensures Continues(weights, rnds, rewinds, log + [f])
  {
    hide NextIs;
    var log' := log + [f];
    assert log'[..|log|] == log;
    assert forall j :: 0 <= j < |log| ==> log'[..j] == log[..j];
  }

  lemma {:induction false} StaysLive(weights: seq<nat>, log: seq<Forward>, f: Forward)
    requires AlwaysLive(weights, log) && Live(weights, DeadAfter(log), f.key)
    ensures AlwaysLive(weights, log + [f])
  {
    assert forall j :: 0 <= j <= |log| ==> (log + [f])[..j] == log[..j];
    assert log[..|log|] == log;
  }

  lemma {:induction false} LastLive(weights: seq<nat>, log: seq<Forward>)
    requires AlwaysLive(weights, log) && log != []
    ensures Live(weights, DeadAfter(log[..|log| - 1]), log[|log| - 1].key)
  {
  }

  lemma {:induction false} NothingYet(weights: seq<nat>)
    ensures Rotates(weights, []) && Tracks({}, {}, [], Current(weights, [])) && AlwaysLive(weights, [])
  {
  }

  lemma {:induction false} TracksDead(used: set<nat>, dead: set<nat>, log: seq<Forward>, since: nat)
    requires Tracks(used, dead, log, since)
    ensures dead == DeadAfter(log)
  {
  }
}
