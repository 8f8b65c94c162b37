/** The buffered writer of bfe_bufio/bufio.go over a connection that may take less than it is given
    or fail at any time: nothing accepted is lost, repeated or reordered. */
module BufWriter {
  import opened Basics

  datatype Error = Sink(code: nat) | ShortWrite

  /** One coming Write of the sink: at most `limit` bytes are taken, then perhaps an error. */
  datatype Plan = Plan(limit: nat, err: Option<Error>)

  /** An io.Writer. After the last plan a write takes everything. */
  class ByteSink {
    var got: seq<byte>
    var plans: seq<Plan>

    constructor (plans: seq<Plan>)
      ensures got == [] && this.plans == plans
    {
      got := [];
      this.plans := plans;
    }

    method Write(p: seq<byte>) returns (n: nat, e: Option<Error>)
      modifies this
      ensures n <= |p| && got == old(got) + p[..n]
      ensures n < |p| || e.Some? ==> |plans| < old(|plans|)
      ensures |plans| <= old(|plans|)
    {
      n, e := |p|, None;
      if plans != [] {
        n, e := Min(plans[0].limit, |p|), plans[0].err;
        plans := plans[1..];
      }
      got := got + p[..n];
    }
  }

  lemma {:induction false} Advance(a: seq<byte>, p: seq<byte>, i: nat, k: nat)
    requires i + k <= |p|
    ensures a + p[..i] + p[i..][..k] == a + p[..i + k] && p[i..][k..] == p[i + k..]
    ensures i + k == |p| ==> p[i..][..k] == p[i..] && p[..i + k] == p
  {
  }

  lemma {:induction false} Regroup(a: seq<byte>, b: seq<byte>, c: seq<byte>)
    ensures a + b + c == a + (b + c)
  {
  }

  class Writer {
    const buf: array<byte>
    const wr: ByteSink
    var n: nat
    var err: Option<Error>
    var totalWrite: nat
    /** Every byte a Write, WriteByte or WriteString has reported as written. */
    ghost var accepted: seq<byte>
    /** What the sink had before this writer was put in front of it. */
    ghost const before: seq<byte>

    /** Conservation: what the sink got through this writer, followed by what is buffered, is what was
        accepted. */
    ghost predicate Conserved()
      reads this`n, this`accepted, wr, buf
    {
      0 < buf.Length && n <= buf.Length && wr.got + buf[..n] == before + accepted
    }

    ghost predicate Valid()
      reads this, wr, buf
    {
      Conserved() && totalWrite == |accepted|
    }

    /** Nothing has failed and nothing is going to. */
    ghost predicate Healthy()
      reads this`err, wr`plans
    {
      err.None? && wr.plans == []
    }

    constructor (wr: ByteSink, size: int)
      ensures Valid() && this.wr == wr && err.None? && accepted == [] && fresh(buf)
      ensures before == wr.got
      ensures buf.Length == if size <= 0 then 4096 else size
    {
      buf := new byte[if size <= 0 then 4096 else size](_ => 0);
      this.wr := wr;
      n, err, totalWrite, accepted := 0, None, 0, [];
      before := wr.got;
    }

    /** Drop the first k buffered bytes, keeping the others in order at the front. */
    method Shift(k: nat)
      requires k <= n <= buf.Length
      modifies this`n, buf
      ensures n == old(n) - k && buf[..n] == old(buf[k..n])
    {
      forall i | 0 <= i < n - k {
        buf[i] := buf[i + k];
      }
      n := n - k;
    }

    /** flush: on success the buffer is empty; on a short or failed write the rest stays buffered and
        the error sticks. */
    method Flush() returns (e: Option<Error>)
      requires Conserved()
      modifies this`n, this`err, wr, buf
      ensures Conserved() && e == err && |wr.plans| <= old(|wr.plans|)
      ensures old(err).Some? ==> err == old(err) && wr.got == old(wr.got) && n == old(n)
      ensures e.None? ==> n == 0 && wr.got == before + accepted
      ensures old(Healthy()) ==> Healthy()
    {
      if err.Some? {
        return err;
      }
      if n == 0 {
        return None;
      }
      var k;
      ghost var filled := buf[..n];
      k, e := wr.Write(buf[..n]);
      assert filled == filled[..k] + filled[k..];
      if k < n && e.None? {
        e := Some(ShortWrite);
      }
      if e.Some? {
        Shift(k);
        err := e;
        return;
      }
      n := 0;
      return None;
    }

    /** copy into the free part of the buffer; the caller accounts for it. */
    method Stash(p: seq<byte>)
      requires n + |p| <= buf.Length
      modifies this`n, buf
      ensures n == old(n) + |p| && buf[..n] == old(buf[..n]) + p
    {
      forall i | 0 <= i < |p| {
        buf[n + i] := p[i];
      }
      n := n + |p|;
    }

    /** Bytes that fit into the buffer. */
    method Append(p: seq<byte>)
      requires Conserved() && |p| <= buf.Length - n
      modifies this`n, this`accepted, buf
      ensures Conserved() && accepted == old(accepted) + p && n == old(n) + |p|
    {
      Regroup(wr.got, buf[..n], p);
      Regroup(before, accepted, p);
      Stash(p);
      accepted := accepted + p;
    }

    method WriteByte(c: byte) returns (e: Option<Error>)
      requires Valid()
      modifies this, wr, buf
      ensures Valid() && e == err && accepted == old(accepted) + (if e.None? then [c] else [])
      ensures old(err).Some? ==> err == old(err)
      ensures old(Healthy()) ==> Healthy()
    {
      if err.Some? {
        return err;
      }
      if buf.Length - n <= 0 {
        e := Flush();
        if e.Some? {
          return;
        }
      }
      Append([c]);
      totalWrite := totalWrite + 1;
      e := None;
    }

    /** Fill the buffer from p and flush it. */
    method FillAndFlush(p: seq<byte>) returns (k: nat)
      requires Conserved() && err.None? && |p| > buf.Length - n
      modifies this`n, this`err, this`accepted, wr, buf
      ensures Conserved() && k == buf.Length - old(n) && accepted == old(accepted) + p[..k]
      ensures |wr.plans| <= old(|wr.plans|) && (err.None? ==> n == 0)
      ensures old(Healthy()) ==> Healthy()
    {
      k := buf.Length - n;
      Append(p[..k]);
      var _ := Flush();
    }

    /** One turn of Write's loop: a large write with an empty buffer goes to the sink directly. */
    method WriteSome(p: seq<byte>) returns (k: nat)
      requires Conserved() && err.None? && |p| > buf.Length - n
      modifies this`n, this`err, this`accepted, wr, buf
      ensures Conserved() && k <= |p| && accepted == old(accepted) + p[..k] && |wr.plans| <= old(|wr.plans|)
      ensures err.None? && k == 0 ==> |wr.plans| < old(|wr.plans|) || n < old(n)
      ensures old(Healthy()) ==> Healthy()
    {
      if n == 0 {
        k, err := wr.Write(p);
        Regroup(before, accepted, p[..k]);
        accepted := accepted + p[..k];
      } else {
        k := FillAndFlush(p);
      }
    }

    /** Write reports as written exactly the bytes it accepted: all of p, or a prefix and the error. */
    method Write(p0: seq<byte>) returns (nn: nat, e: Option<Error>)
      requires Valid()
      modifies this, wr, buf
      ensures Valid() && nn <= |p0| && accepted == old(accepted) + p0[..nn]
      ensures e == err && (e.None? ==> nn == |p0|)
      ensures old(err).Some? ==> nn == 0 && err == old(err)
      ensures old(Healthy()) ==> Healthy()
    {
      hide Conserved;
      var p := p0;
      nn := 0;
      while |p| > buf.Length - n && err.None?
        invariant Conserved() && nn <= |p0| && p == p0[nn..] && accepted == old(accepted) + p0[..nn]
        invariant totalWrite == |old(accepted)|
        invariant old(err).Some? ==> nn == 0 && err == old(err)
        invariant old(Healthy()) ==> Healthy()
        decreases |p|, err.None?, |wr.plans|, n
      {
        var k := WriteSome(p);
        Advance(old(accepted), p0, nn, k);
        nn := nn + k;
        p := p[k..];
      }
      if err.None? {
        Advance(old(accepted), p0, nn, |p|);
        Append(p);
        nn := |p0|;
      }
      totalWrite := totalWrite + nn;
      e := err;
    }

    method WriteString(s0: seq<byte>) returns (nn: nat, e: Option<Error>)
      requires Valid()
      modifies this, wr, buf
      ensures Valid() && nn <= |s0| && accepted == old(accepted) + s0[..nn]
      ensures e == err && (e.None? ==> nn == |s0|)
      ensures old(err).Some? ==> nn == 0 && err == old(err)
      ensures old(Healthy()) ==> Healthy()
    {
      hide Conserved;
      var s := s0;
      nn := 0;
      while |s| > buf.Length - n && err.None?
        invariant Conserved() && nn <= |s0| && s == s0[nn..] && accepted == old(accepted) + s0[..nn]
        invariant totalWrite == |old(accepted)|
        invariant old(err).Some? ==> nn == 0 && err == old(err)
        invariant old(Healthy()) ==> Healthy()
        decreases |s|, err.None?, n
      {
        var k := FillAndFlush(s);
        Advance(old(accepted), s0, nn, k);
        nn := nn + k;
        s := s[k..];
      }
      if err.None? {
        Advance(old(accepted), s0, nn, |s|);
        Append(s);
        nn := |s0|;
      }
      totalWrite := totalWrite + nn;
      e := err;
    }
  }
}
