/** The rewindable request body of bfe_http/transfer.go and the process-wide count of bytes held in
    such bodies. */
module BytesBody {
  import opened Basics
  import opened BufReader

  // -------------------------------------------------------------------------------- the ledger

  function Total(claims: map<nat, nat>): nat
    decreases |claims|
  {
    if claims == map[] then 0 else
      var id := Least(claims.Keys);
      claims[id] + Total(claims - {id})
  }

  lemma {:induction false} TotalSplit(claims: map<nat, nat>, id: nat)
    requires id in claims
    ensures Total(claims) == claims[id] + Total(claims - {id})
    decreases |claims|
  {
    var k := Least(claims.Keys);
    if k != id {
      TotalSplit(claims - {k}, id);
      assert claims - {k} - {id} == claims - {id} - {k};
      TotalSplit(claims - {id}, k);
    }
  }

  lemma {:induction false} TotalUpdate(claims: map<nat, nat>, id: nat, n: nat)
    ensures Total(claims[id := n]) == Total(claims - {id}) + n
    ensures id !in claims ==> claims - {id} == claims
    ensures id in claims ==> Total(claims) == Total(claims - {id}) + claims[id]
  {
    TotalSplit(claims[id := n], id);
    assert claims[id := n] - {id} == claims - {id};
    if id in claims { TotalSplit(claims, id); }
  }

  /** totalBytesBodyBuffer and its limit. `claims` holds the buffer size of every body that was not
      released yet, `refused` the sum of all claims that were refused; each method is one atomic
      step. */
  class Ledger {
    var total: int
    const limit: int
    ghost var claims: map<nat, nat>
    ghost var refused: nat

    /** The count is what is really held less every claim that was ever refused. It never exceeds a
        positive limit, and without a limit nothing is refused. */
    ghost predicate Valid()
      reads this
    {
      && total == Total(claims) - refused
      && (limit <= 0 ==> refused == 0)
      && (limit > 0 ==> total <= limit)
    }

    constructor (limit: int)
      ensures Valid() && this.limit == limit && total == 0 && claims == map[] && refused == 0
    {
      total := 0;
      this.limit := limit;
      claims := map[];
      refused := 0;
    }

    /** addTotalBytesBodyBuffer: refused when it would pass the limit. The body holds its bytes either
        way, because the callers ignore the answer. */
    method Add(delta: nat, ghost id: nat) returns (ok: bool)
      requires Valid() && (id in claims ==> claims[id] == 0)
      modifies this
      ensures Valid() && claims == old(claims)[id := delta]
      ensures ok <==> limit <= 0 || delta == 0 || old(total) + delta <= limit
      ensures total == if ok then old(total) + delta else old(total)
      ensures refused == old(refused) + (if ok then 0 else delta) && (!ok ==> delta > 0)
    {
      TotalUpdate(claims, id, delta);
      claims := claims[id := delta];
      if delta == 0 {
        return true;
      }
      if limit <= 0 {
        total := total + delta;
        return true;
      }
      if total + delta > limit {
        refused := refused + delta;
        return false;
      }
      total := total + delta;
      return true;
    }

    /** A body's buffer is exchanged: its claim is given up and a new one made. */
    method Resize(was: nat, now: nat, ghost id: nat)
      requires Valid() && id in claims && claims[id] == was
      modifies this
      ensures Valid() && claims == old(claims)[id := now]
      ensures refused == old(refused) + (if limit > 0 && now > 0 && old(total) - was + now > limit then now else 0)
    {
      hide Total;
      Sub(was, id, true);
      var _ := Add(now, id);
      assert claims == old(claims)[id := now];
    }

    /** subTotalBytesBodyBuffer for a body that keeps its claim at 0 bytes or gives it up. */
    method Sub(delta: nat, ghost id: nat, ghost keep: bool)
      requires Valid() && id in claims && claims[id] == delta
      modifies this
      ensures Valid() && total == old(total) - delta && refused == old(refused)
      ensures claims == if keep then old(claims)[id := 0] else old(claims) - {id}
    {
      TotalUpdate(claims, id, 0);
      claims := if keep then claims[id := 0] else claims - {id};
      total := total - delta;
    }
  }

  // -------------------------------------------------------------------------- the ledger in use

  datatype Entry = Claim(id: nat, n: nat) | Release(gone: nat)

  datatype Books = Books(total: int, claims: map<nat, nat>, refused: nat)

  /** One body is made, or given up; a body makes one claim while it holds one. */
  function Post(b: Books, limit: int, e: Entry): Books {
    match e
    case Claim(id, n) =>
      if id in b.claims then b
      else if limit > 0 && n > 0 && b.total + n > limit then b.(claims := b.claims[id := n], refused := b.refused + n)
      else Books(b.total + n, b.claims[id := n], b.refused)
    case Release(id) =>
      if id in b.claims then b.(total := b.total - b.claims[id], claims := b.claims - {id}) else b
  }

  function PostAll(limit: int, es: seq<Entry>): Books {
    if es == [] then Books(0, map[], 0) else Post(PostAll(limit, es[..|es| - 1]), limit, es[|es| - 1])
  }

  /** The i-th entry finds no room under the limit. */
  ghost predicate FindsNoRoom(limit: int, es: seq<Entry>, i: nat)
    requires i < |es|
  {
    var b := PostAll(limit, es[..i]);
    es[i].Claim? && es[i].id !in b.claims && limit > 0 && es[i].n > 0 && b.total + es[i].n > limit
  }

  /** The count is what the bodies hold if and only if no claim ever found the limit in its way. */
  lemma {:induction false} CountsAllIff(limit: int, es: seq<Entry>)
    ensures var b := PostAll(limit, es);
            && b.total == Total(b.claims) - b.refused
            && (b.total == Total(b.claims) <==> forall i :: 0 <= i < |es| ==> !FindsNoRoom(limit, es, i))
    decreases |es|
  {
    hide Total;
    if es == [] {
      NothingHeld();
    } else {
      var n := |es| - 1;
      var head := es[..n];
      CountsAllIff(limit, head);
      var b := PostAll(limit, head);
      match es[n] {
        case Claim(id, k) => TotalUpdate(b.claims, id, k);
        case Release(id) => TotalUpdate(b.claims, id, 0);
      }
      forall i | 0 <= i < n
        ensures FindsNoRoom(limit, es, i) <==> FindsNoRoom(limit, head, i)
      {
        assert es[..i] == head[..i];
      }
      assert FindsNoRoom(limit, es, n) <==> PostAll(limit, es).refused > b.refused;
      if b.refused > 0 {
        var i :| 0 <= i < n && FindsNoRoom(limit, head, i);
        assert FindsNoRoom(limit, es, i);
      }
    }
  }

  lemma {:induction false} NothingHeld()
    ensures Total(map[]) == 0
  {
  }

  /** The class does just that. */
  method Keep(limit: int, es: seq<Entry>) returns (l: Ledger)
    ensures fresh(l) && l.Valid() && l.limit == limit
    ensures Books(l.total, l.claims, l.refused) == PostAll(limit, es)
  {
    l := new Ledger(limit);
    var held: map<nat, nat> := map[];
    for i := 0 to |es|
      invariant fresh(l) && l.Valid() && l.limit == limit && held == l.claims
      invariant Books(l.total, l.claims, l.refused) == PostAll(limit, es[..i])
    {
      assert es[..i + 1][..i] == es[..i];
      match es[i]
      case Claim(id, n) =>
        if id !in held {
          var _ := l.Add(n, id);
          held := held[id := n];
        }
      case Release(id) =>
        if id in held {
          l.Sub(held[id], id, false);
          held := held - {id};
        }
    }
    assert es[..|es|] == es;
  }

  /** With a limit of 10, two bodies of 8 bytes hold 16 while the count says 8; once both are given up
      it says -8, and from then on 18 bytes pass. */
  lemma {:induction false} CountDrifts()
    ensures PostAll(10, [Claim(1, 8), Claim(2, 8)]) == Books(8, map[1 := 8, 2 := 8], 8)
    ensures Total(map[1 := 8, 2 := 8]) == 16
    ensures PostAll(10, [Claim(1, 8), Claim(2, 8), Release(1), Release(2)]) == Books(-8, map[], 8)
    ensures PostAll(10, [Claim(1, 8), Claim(2, 8), Release(1), Release(2), Claim(3, 18)]) == Books(10, map[3 := 18], 8)
  {
    var (a, b) := ([Claim(1, 8)], [Claim(1, 8), Claim(2, 8)]);
    var (c, d) := (b + [Release(1)], b + [Release(1), Release(2)]);
    assert a[..0] == [] && b[..1] == a && c[..2] == b && d[..3] == c;
    assert PostAll(10, a) == Books(8, map[1 := 8], 0);
    assert PostAll(10, b) == Books(8, map[1 := 8, 2 := 8], 8);
    CountsAllIff(10, b);
    assert map[1 := 8, 2 := 8] - {1} == map[2 := 8] && map[2 := 8] - {2} == map[];
    assert PostAll(10, c) == Books(0, map[2 := 8], 8);
    assert [Claim(1, 8), Claim(2, 8), Release(1), Release(2)] == d;
    assert PostAll(10, d) == Books(-8, map[], 8);
    assert [Claim(1, 8), Claim(2, 8), Release(1), Release(2), Claim(3, 18)][..4] == d;
  }

  /** A body has a claim for its buffer until it is released. */
  ghost predicate Claimed(claims: map<nat, nat>, id: nat, released: bool, n: nat) {
    if released then id !in claims else id in claims && claims[id] == n
  }

  /** Delivered bytes, then the rest of the buffer, then the source unless the buffer is all, make up
      the body. */
  ghost predicate Consistent(buf: seq<byte>, left: seq<byte>, delivered: seq<byte>, original: seq<byte>, all: bool,
                             started: bool, err: ReadResult, rest: seq<byte>)
  {
    && delivered + left + (if all then [] else rest) == original
    && (started ==> left == [])
    && (!started ==> delivered + left == buf)
    && (all ==> buf == original)
    && (err == EOF ==> delivered == original)
  }

  lemma {:induction false} StartsOver(buf: seq<byte>, all: bool, rest: seq<byte>)
    ensures Consistent(buf, buf, [], buf + (if all then [] else rest), all, false, Data, rest)
  {
  }

  // --------------------------------------------------------------------------------- the body

  datatype ReadResult = Data | EOF | Failed

  /** The underlying body: a byte stream that can no longer be read once closed. */
  class SourceBody {
    const src: ByteSource
    var closed: bool

    constructor (src: ByteSource)
      ensures this.src == src && !closed
    {
      this.src := src;
      closed := false;
    }

    method Read(p: array<byte>) returns (n: nat, e: ReadResult)
      requires p.Length > 0
      modifies src, p
      ensures n <= p.Length && p[..n] + src.rest == old(src.rest)
      ensures closed ==> n == 0 && e == Failed && src.rest == old(src.rest)
      ensures e == EOF ==> src.rest == [] && !closed
      ensures e == Data && n == 0 ==> src.Measure() < old(src.Measure())
      ensures src.fin == Source(0) && !closed ==> e != Failed
      ensures src.Measure() <= old(src.Measure())
    {
      if closed {
        assert p[..0] == [];
        return 0, Failed;
      }
      var data, err := src.Read(p.Length);
      forall i | 0 <= i < |data| {
        p[i] := data[i];
      }
      n := |data|;
      assert p[..n] == data;
      e := if err.None? then Data else if err == Some(Source(0)) then EOF else Failed;
    }
  }

  /** bytes_body together with its bodyReader: `left` is what the reader's buffer still holds,
      `withSrc` whether it goes on with the source. */
  class Rewindable {
    const src: SourceBody
    const ledger: Ledger
    var buf: seq<byte>
    var all: bool
    var srcClosed: bool
    var released: bool
    var left: seq<byte>
    var withSrc: bool
    var srcStarted: bool
    var err: ReadResult
    ghost const id: nat
    /** The whole body, and what was delivered since the last start or rewind. */
    ghost var original: seq<byte>
    ghost var delivered: seq<byte>

    ghost predicate Valid()
      reads this, src, src.src, ledger
    {
      && ledger.Valid()
      && Claimed(ledger.claims, id, released, |buf|)
      && withSrc == !all && srcClosed == src.closed
      && Consistent(buf, left, delivered, original, all, srcStarted, err, src.src.rest)
    }

    constructor (src: SourceBody, bb: seq<byte>, all: bool, ledger: Ledger, ghost id: nat)
      requires ledger.Valid() && id !in ledger.claims && !src.closed && (all ==> src.src.rest == [])
      modifies ledger
      ensures Valid() && this.src == src && this.ledger == ledger && this.id == id && buf == bb && this.all == all
      ensures original == bb + src.src.rest && delivered == [] && err == Data && !released && !srcClosed && !srcStarted
      ensures ledger.claims == old(ledger.claims)[id := |bb|]
    {
      this.src, this.ledger, this.id := src, ledger, id;
      buf, this.all, srcClosed, released := bb, all, false, false;
      left, withSrc, srcStarted, err := bb, !all, false, Data;
      original := bb + src.src.rest;
      delivered := [];
      new;
      var _ := ledger.Add(|bb|, id);
    }

    /** bytes_body.Read over bodyReader.Read: first the buffer, then the source. */
    method Read(p: array<byte>) returns (n: nat, e: ReadResult)
      requires Valid() && p.Length > 0
      modifies this, src.src, p
      ensures Valid() && n <= p.Length && delivered == old(delivered) + p[..n] && buf == old(buf) && all == old(all)
      ensures original == old(original)
      ensures e == EOF ==> delivered == original
      ensures old(err) != Data ==> n == 0 && e == old(err)
      ensures old(err) == Data && old(left) != [] ==> n == Min(p.Length, old(|left|)) && e == Data
      ensures e == Data && n == 0 ==> src.src.Measure() < old(src.src.Measure())
      ensures src.src.fin == Source(0) && (all || !srcClosed) && old(err) != Failed ==> e != Failed
      ensures src.src.Measure() <= old(src.src.Measure()) && ledger.claims == old(ledger.claims)
      ensures srcClosed == old(srcClosed)
      ensures e == Data ==> err == Data
    {
      hide Ledger.Valid;
      assert p[..0] == [];
      if err != Data {
        return 0, err;
      }
      if !srcStarted {
        if left != [] {
          n := ReadBuffered(p);
          return n, Data;
        }
        srcStarted := true;
      }
      if !withSrc {
        err := EOF;
        return 0, EOF;
      }
      n, e := ReadSource(p);
    }

    method ReadSource(p: array<byte>) returns (n: nat, e: ReadResult)
      requires Valid() && p.Length > 0 && left == [] && withSrc && srcStarted && err == Data
      modifies this`delivered, this`err, src.src, p
      ensures Valid() && n <= p.Length && delivered == old(delivered) + p[..n] && e == err
      ensures e == Data && n == 0 ==> src.src.Measure() < old(src.src.Measure())
      ensures src.src.fin == Source(0) && !srcClosed ==> e != Failed
      ensures src.src.Measure() <= old(src.src.Measure())
    {
      hide Ledger.Valid;
      n, e := src.Read(p);
      Rejoin(delivered, p[..n], src.src.rest);
      assert delivered + p[..n] + [] == delivered + p[..n];
      delivered := delivered + p[..n];
      err := e;
    }

    method ReadBuffered(p: array<byte>) returns (n: nat)
      requires Valid() && p.Length > 0 && left != [] && err == Data
      modifies this`left, this`delivered, p
      ensures Valid() && n == Min(p.Length, old(|left|)) && delivered == old(delivered) + p[..n]
    {
      hide Ledger.Valid;
      n := Min(p.Length, |left|);
      forall i | 0 <= i < n {
        p[i] := left[i];
      }
      assert p[..n] == left[..n] && left == left[..n] + left[n..];
      delivered := delivered + left[..n];
      left := left[n..];
    }

    method Reclaim(n: nat)
      requires ledger.Valid() && Claimed(ledger.claims, id, released, |buf|)
      modifies ledger
      ensures ledger.Valid() && Claimed(ledger.claims, id, released, n)
      ensures ledger.claims == if released then old(ledger.claims) else old(ledger.claims)[id := n]
    {
      hide Ledger.Valid;
      if !released {
        ledger.Resize(|buf|, n, id);
      }
    }

    /** SetBytes: the body is now the new buffer, followed by what the source still has unless the
        buffer is all there is. The claim follows the buffer, if the body still has one. */
    method SetBytes(newBuf: seq<byte>, complete: bool)
      requires Valid()
      modifies this, ledger
      ensures Valid() && buf == newBuf && all == (old(all) || complete) && srcClosed == old(srcClosed)
      ensures released == old(released)
      ensures delivered == [] && err == Data && !srcStarted && original == newBuf + (if all then [] else src.src.rest)
      ensures ledger.claims == if released then old(ledger.claims) else old(ledger.claims)[id := |newBuf|]
    {
      hide Ledger.Valid, Consistent, Claimed;
      Reclaim(|newBuf|);
      Install(newBuf, all || complete);
      StartsOver(newBuf, all, src.src.rest);
    }

    method Install(newBuf: seq<byte>, complete: bool)
      modifies this
      ensures buf == left == newBuf && all == complete && withSrc == !all && !srcStarted && err == Data
      ensures delivered == []
      ensures original == newBuf + (if all then [] else src.src.rest) && srcClosed == old(srcClosed)
      ensures released == old(released)
    {
      buf, left, all, withSrc := newBuf, newBuf, complete, !complete;
      srcStarted, err, delivered := false, Data, [];
      original := newBuf + (if all then [] else src.src.rest);
    }

    /** Rewind: possible exactly when nothing would be missing; the body stays what it was. */
    method Rewind() returns (ok: bool)
      requires Valid()
      modifies this, ledger
      ensures Valid() && ledger.claims == old(ledger.claims) && all == old(all) && original == old(original)
      ensures srcClosed == old(srcClosed) && released == old(released)
      ensures ok <==> old(all || (!srcClosed && !srcStarted))
      ensures ok ==> delivered == [] && err == Data
    {
      if (srcClosed || srcStarted) && !all {
        return false;
      }
      SetBytes(buf, all);
      if !released { assert old(ledger.claims)[id := |buf|] == old(ledger.claims); }
      return true;
    }

    /** Close gives the claim back once. */
    method Close()
      requires Valid()
      modifies this`srcClosed, this`released, ledger, src`closed
      ensures Valid() && srcClosed && (old(srcClosed) || released)
      ensures ledger.claims == if old(srcClosed) || old(released) then old(ledger.claims) else old(ledger.claims) - {id}
    {
      if srcClosed {
        return;
      }
      srcClosed := true;
      if !released {
        released := true;
        ledger.Sub(|buf|, id, false);
      }
      src.closed := true;
    }

    /** After a successful Rewind, reading to the end delivers the whole original body. */
    method ReadToEnd(m: nat) returns (body: seq<byte>, e: ReadResult)
      requires Valid() && m > 0 && delivered == [] && err == Data
      modifies this, src.src
      ensures Valid() && e != Data && body == delivered && body <= original && original == old(original)
      ensures e == EOF ==> body == original
      ensures src.src.fin == Source(0) && (all || !srcClosed) ==> e == EOF
    {
      body := [];
      var p := new byte[m](_ => 0);
      e := Data;
      while e == Data
        invariant Valid() && body == delivered && fresh(p) && p.Length == m && (e == Data ==> err == Data)
        invariant e == EOF ==> body == original
        invariant all == old(all) && srcClosed == old(srcClosed) && original == old(original)
        invariant src.src.fin == Source(0) && (all || !srcClosed) ==> e != Failed
        decreases e == Data, |original| - |delivered|, src.src.Measure()
      {
        var n;
        n, e := Read(p);
        body := body + p[..n];
      }
    }
  }

  /** io.ReadAll over a LimitReader. */
  method ReadLimited(src: SourceBody, maxSize: nat) returns (bb: seq<byte>, ok: bool)
    modifies src.src
    ensures bb + src.src.rest == old(src.src.rest) && |bb| <= maxSize
    ensures ok && |bb| < maxSize ==> src.src.rest == []
    ensures src.src.fin == Source(0) && !src.closed ==> ok
  {
    bb := [];
    while |bb| < maxSize
      invariant bb + src.src.rest == old(src.src.rest) && |bb| <= maxSize
      decreases maxSize - |bb|, src.src.Measure()
    {
      var p := new byte[Min(512, maxSize - |bb|)];
      var n, e := src.Read(p);
      Rejoin(bb, p[..n], src.src.rest);
      bb := bb + p[..n];
      if e == Failed {
        return bb, false;
      }
      if e == EOF {
        return bb, true;
      }
    }
    return bb, true;
  }

  /** newBytesBody: buffer up to maxSize bytes; a shorter body is held completely. */
  method NewBytesBody(src: SourceBody, maxSize: nat, ledger: Ledger, ghost id: nat) returns (b: Rewindable?)
    requires ledger.Valid() && id !in ledger.claims && !src.closed
    modifies src.src, ledger
    ensures b == null ==> ledger.claims == old(ledger.claims) && src.src.fin != Source(0)
    ensures b != null ==>
              && fresh(b) && b.Valid() && b.src == src && b.ledger == ledger && b.id == id
              && b.original == old(src.src.rest)
              && b.delivered == [] && b.err == Data && b.buf == b.original[..Min(maxSize, |b.original|)]
              && (b.all <==> |b.original| < maxSize)
              && ledger.claims == old(ledger.claims)[id := |b.buf|]
  {
    var bb, ok := ReadLimited(src, maxSize);
    if !ok {
      return null;
    }
    b := new Rewindable(src, bb, |bb| < maxSize, ledger, id);
    assert b.original[..|bb|] == bb;
  }
}
