/** The buffered reader of bfe_bufio/bufio.go: a sliding window over an array that must behave like
    the plain byte stream behind it, however the source cuts that stream into reads. */
module BufReader {
  import opened Basics

  const LF: byte := 10
  const CR: byte := 13

  datatype Error = Source(code: nat) | BufferFull | NegativeCount

  /** One coming Read of the source: at most `limit` bytes, and whether the final error arrives
      together with the last bytes. */
  datatype Plan = Plan(limit: nat, eager: bool)

  /** An io.Reader that delivers `rest` and then, forever, the error `fin`. Reads follow `plans`,
      which may hold back bytes and return nothing at all any number of times; after the last plan
      a read delivers as much as fits. */
  class ByteSource {
    var rest: seq<byte>
    var plans: seq<Plan>
    const fin: Error

    constructor (content: seq<byte>, plans: seq<Plan>, code: nat)
      ensures rest == content && this.plans == plans && fin == Source(code)
    {
      rest := content;
      this.plans := plans;
      fin := Source(code);
    }

    ghost function Measure(): nat
      reads this
    {
      |rest| + |plans|
    }

    /** What the next read brings, for so much space. */
    ghost function Next(space: nat): (seq<byte>, Option<Error>)
      reads this
    {
      if space == 0 then ([], None)
      else if rest == [] then ([], Some(fin))
      else
        var n := Min(if plans == [] then space else Min(space, plans[0].limit), |rest|);
        (rest[..n], if n == |rest| && plans != [] && plans[0].eager then Some(fin) else None)
    }

    method Read(space: nat) returns (data: seq<byte>, err: Option<Error>)
      modifies this
      ensures data + rest == old(rest) && |data| <= space && (data, err) == old(Next(space))
      ensures plans == old(plans) || (old(plans) != [] && plans == old(plans)[1..])
      ensures err.Some? ==> rest == [] && err == Some(fin)
      ensures space > 0 && err.None? ==> Measure() < old(Measure())
      ensures space == 0 ==> err.None? && Measure() == old(Measure())
      ensures Measure() <= old(Measure())
    {
      if space == 0 {
        return [], None;
      }
      if rest == [] {
        return [], Some(fin);
      }
      var limit, eager := space, false;
      if plans != [] {
        limit, eager := Min(space, plans[0].limit), plans[0].eager;
        plans := plans[1..];
      }
      var n := Min(limit, |rest|);
      data := rest[..n];
      rest := rest[n..];
      err := if rest == [] && eager then Some(fin) else None;
    }
  }

  /** bytes.IndexByte: the first position of delim, or the length when there is none. */
  function Find(s: seq<byte>, delim: byte): (i: nat)
    ensures i <= |s| && (i < |s| ==> s[i] == delim)
    ensures forall k :: 0 <= k < i ==> s[k] != delim
  {
    if s == [] || s[0] == delim then 0 else 1 + Find(s[1..], delim)
  }

  lemma {:induction false} FindIn(s: seq<byte>, delim: byte, i: nat)
    requires i <= |s| && (i < |s| ==> s[i] == delim)
    requires forall k :: 0 <= k < i ==> s[k] != delim
    ensures Find(s, delim) == i
  {
  }

  lemma {:induction false} FindInPrefix(s: seq<byte>, n: nat, delim: byte)
    requires n <= |s|
    ensures Find(s[..n], delim) < n ==> Find(s, delim) == Find(s[..n], delim)
    ensures Find(s[..n], delim) == n ==> delim !in s[..n] && Find(s, delim) >= n
  {
    var i := Find(s[..n], delim);
    if i < n { FindIn(s, delim, i); }
    assert forall k :: 0 <= k < i ==> s[k] == s[..n][k];
  }

  lemma {:induction false} FindAfter(s: seq<byte>, n: nat, delim: byte)
    requires n <= |s| && delim !in s[..n]
    ensures Find(s, delim) == n + Find(s[n..], delim)
  {
    assert forall k :: 0 <= k < n ==> s[k] == s[..n][k];
    FindIn(s, delim, n + Find(s[n..], delim));
  }

  /** The shortest prefix that ends in delim, or everything. */
  function Until(s: seq<byte>, delim: byte): (r: seq<byte>)
    ensures r <= s && (delim in s ==> r != [] && r[|r| - 1] == delim && delim !in r[..|r| - 1])
    ensures delim !in s ==> r == s
  {
    if Find(s, delim) < |s| then s[..Find(s, delim) + 1] else s
  }

  lemma {:induction false} UntilAfter(a: seq<byte>, s: seq<byte>, delim: byte)
    requires delim !in a
    ensures Until(a + s, delim) == a + Until(s, delim)
    ensures delim in a + s <==> delim in s
  {
    assert (a + s)[..|a|] == a && (a + s)[|a|..] == s;
    FindAfter(a + s, |a|, delim);
  }

  lemma {:induction false} UntilHas(s: seq<byte>, delim: byte)
    ensures Find(s, delim) < |s| <==> delim in s
  {
  }

  lemma {:induction false} UntilAll(s: seq<byte>, delim: byte)
    ensures delim !in s ==> Until(s, delim) == s
  {
  }

  /** A line without its ending: LF, or CR LF. */
  function TrimEol(l: seq<byte>): seq<byte>
    requires l != [] && l[|l| - 1] == LF
  {
    if |l| > 1 && l[|l| - 2] == CR then l[..|l| - 2] else l[..|l| - 1]
  }

  /** a can be cut off in front of s without tearing a line ending apart. */
  predicate CleanCut(a: seq<byte>, s: seq<byte>) {
    !(a != [] && a[|a| - 1] == CR && s != [] && s[0] == LF)
  }

  lemma {:induction false} TrimJoin(a: seq<byte>, l: seq<byte>)
    requires l != [] && l[|l| - 1] == LF && (|l| == 1 && a != [] ==> a[|a| - 1] != CR)
    ensures TrimEol(a + l) == a + TrimEol(l)
  {
    var al := a + l;
    assert al[..|al| - 1] == a + l[..|l| - 1];
    if |l| > 1 { assert al[..|al| - 2] == a + l[..|l| - 2]; }
  }

  lemma {:induction false} TrimAfter(a: seq<byte>, s: seq<byte>)
    requires LF !in a && LF in s && CleanCut(a, s)
    ensures LF in a + s && TrimEol(Until(a + s, LF)) == a + TrimEol(Until(s, LF))
  {
    hide TrimEol, Find;
    UntilAfter(a, s, LF);
    TrimJoin(a, Until(s, LF));
  }

  lemma {:induction false} JoinCut(a: seq<byte>, b: seq<byte>, s: seq<byte>)
    requires b != [] && CleanCut(b, s)
    ensures CleanCut(a + b, s)
  {
  }

  lemma {:induction false} UntilEnds(s: seq<byte>, delim: byte)
    ensures delim in s ==> Until(s, delim) != [] && Until(s, delim)[|Until(s, delim)| - 1] == delim
    ensures delim !in s ==> Until(s, delim) == s
  {
  }

  lemma {:induction false} Rejoin(a: seq<byte>, b: seq<byte>, c: seq<byte>)
    ensures a + (b + c) == a + b + c
  {
  }

  /** How much of an unterminated line a full buffer takes: a CR at its end is put back. */
  function Piece(s: seq<byte>, limit: nat): (k: nat)
    requires 16 <= limit <= |s|
    ensures 0 < k <= limit
  {
    if s[limit - 1] == CR then limit - 1 else limit
  }

  /** Full buffers use up the bytes exactly. */
  ghost predicate Drains(s: seq<byte>, limit: nat)
    requires 16 <= limit
  {
    if |s| < limit then s == [] else Drains(s[Piece(s, limit)..], limit)
  }

  lemma {:induction false} DrainsStep(s: seq<byte>, limit: nat)
    requires 16 <= limit
    ensures |s| < limit ==> (Drains(s, limit) <==> s == [])
    ensures |s| >= limit ==> (Drains(s, limit) <==> Drains(s[Piece(s, limit)..], limit))
  {
  }

  /** The last line is given up for the error: nothing of it is left, or will be when the error shows. */
  ghost predicate GivenUp(pending: bool, s: seq<byte>, limit: nat)
    requires 16 <= limit
  {
    if pending then s == [] else Drains(s, limit)
  }

  /** A fragment of a full buffer leaves the fate of the line as it was. */
  lemma {:induction false} GivenUpStep(s: seq<byte>, line: seq<byte>, rest: seq<byte>, limit: nat, pending: bool)
    requires 16 <= limit <= |s| && line + rest == s && |line| == Piece(s, limit) && (pending ==> |rest| <= 1)
    ensures GivenUp(pending, rest, limit) <==> GivenUp(false, s, limit)
  {
    assert s[|line|..] == rest;
    DrainsStep(s, limit);
    DrainsStep(rest, limit);
  }

  /** An unterminated line as long as the buffer is given up, one a byte shorter or longer is not. */
  lemma {:induction false} ExactBufferGivenUp(s: seq<byte>, limit: nat)
    requires 16 <= limit && |s| <= limit + 1 && (|s| >= limit ==> s[limit - 1] != CR)
    ensures Drains(s, limit) <==> |s| == 0 || |s| == limit
  {
    DrainsStep(s, limit);
    if |s| >= limit { DrainsStep(s[limit..], limit); }
  }

  class Reader {
    const buf: array<byte>
    const src: ByteSource
    var r: nat
    var w: nat
    var err: Option<Error>

    ghost predicate Valid()
      reads this, src
    {
      && 16 <= buf.Length && r <= w <= buf.Length && src.fin.Source?
      && (err.Some? ==> src.rest == [] && err == Some(src.fin))
    }

    /** The bytes not yet consumed: the window, then what the source still has. */
    ghost function Rest(): seq<byte>
      requires Valid()
      reads this, src, buf
    {
      buf[r..w] + src.rest
    }

    /** NewReaderSize: a buffer of at least 16 bytes. */
    constructor (src: ByteSource, size: nat)
      requires src.fin.Source?
      ensures Valid() && this.src == src && Rest() == src.rest && fresh(buf)
      ensures buf.Length == if size < 16 then 16 else size
    {
      buf := new byte[if size < 16 then 16 else size](_ => 0);
      this.src := src;
      r, w, err := 0, 0, None;
    }

    ghost function Measure(): nat
      reads this, src
    {
      src.Measure() + (if err.None? then 1 else 0)
    }

    /** Slide existing data to the beginning of the buffer. */
    method Slide()
      requires Valid()
      modifies this`r, this`w, buf
      ensures Valid() && r == 0 && w == old(w - r) && buf[..w] == old(buf[r..w])
    {
      if r > 0 {
        forall i | 0 <= i < w - r {
          buf[i] := buf[r + i];
        }
        w := w - r;
        r := 0;
      }
    }

    /** Put bytes behind the window. */
    method Extend(data: seq<byte>)
      requires Valid() && r == 0 && w + |data| <= buf.Length
      modifies this`w, buf
      ensures Valid() && w == old(w) + |data| && buf[..w] == old(buf[..w]) + data && buf[..old(w)] == old(buf[..w])
    {
      forall i | 0 <= i < |data| {
        buf[w + i] := data[i];
      }
      w := w + |data|;
    }

    /** fill: slide the window to the front and read more behind it. The stream does not change. */
    method Fill()
      requires Valid() && err.None?
      modifies this, src, buf
      ensures Valid() && Rest() == old(Rest()) && r == 0 && w >= old(w - r)
      ensures buf[..old(w - r)] == old(buf[r..w])
      ensures old(w - r) < buf.Length ==> Measure() < old(Measure())
      ensures old(w - r) == buf.Length ==> w == buf.Length && Measure() == old(Measure())
      ensures err == old(src.Next(buf.Length - (w - r))).1
      ensures w == old(w - r) + |old(src.Next(buf.Length - (w - r))).0|
    {
      hide ByteSource.Next;
      Slide();
      var n := w;
      ghost var window := buf[..w];
      var data, e := src.Read(buf.Length - w);
      Extend(data);
      if e.Some? {
        err := e;
      }
      assert buf[..n] == window;
      Rejoin(window, data, src.rest);
      assert buf[r..w] == buf[..w];
    }

    method ReadErr() returns (e: Option<Error>)
      requires Valid()
      modifies this`err
      ensures Valid() && e == old(err) && err.None? && Rest() == old(Rest())
    {
      e := err;
      err := None;
    }

    /** Peek shows the next n bytes, or all there are, and consumes nothing. */
    method Peek(n: int) returns (p: seq<byte>, e: Option<Error>)
      requires Valid()
      modifies this, src, buf
      ensures Valid() && Rest() == old(Rest())
      ensures n < 0 ==> p == [] && e == Some(NegativeCount)
      ensures n > buf.Length ==> p == [] && e == Some(BufferFull)
      ensures 0 <= n <= buf.Length ==>
                && p == old(Rest())[..Min(n, |old(Rest())|)]
                && e == if |old(Rest())| < n then Some(src.fin) else None
    {
      if n < 0 {
        return [], Some(NegativeCount);
      }
      if n > buf.Length {
        return [], Some(BufferFull);
      }
      while w - r < n && err.None?
        invariant Valid() && Rest() == old(Rest())
        decreases Measure()
      {
        Fill();
      }
      var m := Min(w - r, n);
      e := None;
      if m < n {
        e := ReadErr();
      }
      p := buf[r..r + m];
    }

    /** Read delivers a prefix of the stream; asked for at least one byte, it reports an error only
        when everything was delivered. Asked for none, it reports the error that is pending. */
    method Read(p: array<byte>) returns (n: nat, e: Option<Error>)
      requires Valid() && p != buf
      modifies this, src, buf, p
      ensures Valid() && n <= p.Length && p[..n] + Rest() == old(Rest())
      ensures e.Some? ==> e == Some(src.fin) && (p.Length > 0 ==> Rest() == [])
      ensures p.Length == 0 ==> n == 0 && e == old(err) && Rest() == old(Rest())
      ensures p.Length > 0 && n == 0 && e.None? ==> Measure() < old(Measure())
      ensures p.Length > 0 && old(w > r) ==> n == Min(p.Length, old(w - r)) && e.None?
      ensures p.Length > 0 && old(w == r) && old(err).None? ==>
                n == Min(p.Length, |old(src.Next(if p.Length >= buf.Length then p.Length else buf.Length)).0|)
      ensures forall i :: n <= i < p.Length ==> p[i] == old(p[i])
    {
      hide ByteSource.Next;
      assert p[..0] == [];
      if p.Length == 0 {
        e := TakeErr();
        return 0, e;
      }
      if w == r {
        if err.Some? {
          e := ReadErr();
          return 0, e;
        }
        if p.Length >= buf.Length {
          n, e := ReadDirect(p);
        } else {
          n, e := ReadFilled(p);
        }
        return n, e;
      }
      n := TakeFromWindow(p);
      e := None;
    }

    /** A small read into an empty buffer fills it once. */
    method ReadFilled(p: array<byte>) returns (n: nat, e: Option<Error>)
      requires Valid() && p != buf && w == r && err.None? && 0 < p.Length < buf.Length
      modifies this, src, buf, p
      ensures Valid() && n <= p.Length && p[..n] + Rest() == old(Rest())
      ensures e.Some? ==> e == Some(src.fin) && Rest() == []
      ensures n == 0 && e.None? ==> Measure() < old(Measure())
      ensures n == Min(p.Length, |old(src.Next(buf.Length)).0|)
      ensures forall i :: n <= i < p.Length ==> p[i] == old(p[i])
    {
      hide ByteSource.Next;
      Fill();
      if w == r {
        e := ReadErr();
        assert p[..0] == [];
        return 0, e;
      }
      n := TakeFromWindow(p);
      e := None;
    }

    method TakeFromWindow(p: array<byte>) returns (n: nat)
      requires Valid() && p != buf
      modifies this`r, p
      ensures Valid() && n == Min(p.Length, old(w - r)) && p[..n] + Rest() == old(Rest())
      ensures forall i :: n <= i < p.Length ==> p[i] == old(p[i])
    {
      n := Min(p.Length, w - r);
      forall i | 0 <= i < n {
        p[i] := buf[r + i];
      }
      assert p[..n] == buf[r..r + n];
      assert buf[r..w] == buf[r..r + n] + buf[r + n..w];
      Rejoin(buf[r..r + n], buf[r + n..w], src.rest);
      r := r + n;
    }

    /** A large read into an empty buffer bypasses it. */
    method ReadDirect(p: array<byte>) returns (n: nat, e: Option<Error>)
      requires Valid() && p != buf && w == r && err.None?
      modifies this, src, p
      ensures Valid() && n <= p.Length && p[..n] + Rest() == old(Rest())
      ensures e.Some? ==> e == Some(src.fin) && Rest() == []
      ensures p.Length > 0 && n == 0 && e.None? ==> Measure() < old(Measure())
      ensures n == |old(src.Next(p.Length)).0|
      ensures forall i :: n <= i < p.Length ==> p[i] == old(p[i])
    {
      var data;
      data, e := src.Read(p.Length);
      forall i | 0 <= i < |data| {
        p[i] := data[i];
      }
      n := |data|;
      assert p[..n] == data;
    }

    /** An empty read reports a pending error. */
    method TakeErr() returns (e: Option<Error>)
      requires Valid()
      modifies this`err
      ensures Valid() && Rest() == old(Rest()) && e == old(err)
    {
      e := ReadErr();
    }

    method ReadByte() returns (c: byte, e: Option<Error>)
      requires Valid()
      modifies this, src, buf
      ensures Valid()
      ensures e.None? <==> old(Rest()) != []
      ensures e.None? ==> [c] + Rest() == old(Rest())
      ensures e.Some? ==> e == Some(src.fin) && Rest() == []
    {
      while w == r
        invariant Valid() && Rest() == old(Rest())
        decreases Measure()
      {
        if err.Some? {
          e := ReadErr();
          return 0, e;
        }
        Fill();
      }
      c := buf[r];
      assert buf[r..w] == [c] + buf[r + 1..w];
      r := r + 1;
      e := None;
    }

    /** Consume the first k bytes of the window. */
    method Consume(k: nat) returns (line: seq<byte>)
      requires Valid() && k <= w - r
      modifies this`r
      ensures Valid() && r == old(r) + k && line == buf[old(r)..r] && |line| == k && err == old(err)
      ensures line + Rest() == old(Rest())
    {
      line := buf[r..r + k];
      assert buf[r..w] == line + buf[r + k..w];
      r := r + k;
    }

    /** Consume the window up to its delimiter. */
    method ConsumeThrough(i: nat, ghost delim: byte) returns (line: seq<byte>)
      requires Valid() && i < w - r && Rest()[..i + 1] == Until(Rest(), delim)
      modifies this`r
      ensures Valid() && line + Rest() == old(Rest()) && line == Until(old(Rest()), delim)
    {
      hide Until;
      line := Consume(i + 1);
      assert (line + Rest())[..i + 1] == line;
    }

    /** Consume the whole window. */
    method ConsumeWindow() returns (line: seq<byte>)
      requires Valid()
      modifies this`r
      ensures Valid() && line == old(buf[r..w]) && r == w && line + Rest() == old(Rest()) && Rest() == src.rest
      ensures err == old(err)
    {
      line := Consume(w - r);
    }

    /** Look for the delimiter in the window, past the part already searched. */
    method Search(delim: byte, done: nat) returns (found: bool, i: nat)
      requires Valid() && done <= w - r && delim !in buf[r..r + done]
      ensures found ==> i < w - r && i == Find(Rest(), delim) && Rest()[..i + 1] == Until(Rest(), delim)
      ensures !found ==> delim !in buf[r..w] && Find(Rest(), delim) >= w - r
    {
      i := done + Find(buf[r + done..w], delim);
      found := i < w - r;
      assert Rest()[..w - r] == buf[r..w] && buf[r..w][done..] == buf[r + done..w]
          && buf[r..w][..done] == buf[r..r + done];
      FindAfter(buf[r..w], done, delim);
      FindInPrefix(Rest(), w - r, delim);
    }

    /** The reading loop of ReadSlice: fill until the delimiter is in the window, the buffer is full
        or the source failed. Nothing is consumed. */
    method Seek(delim: byte) returns (found: bool, i: nat)
      requires Valid()
      modifies this, src, buf
      ensures Valid() && Rest() == old(Rest())
      ensures found ==> i < w - r && i == Find(Rest(), delim) && Rest()[..i + 1] == Until(Rest(), delim)
      ensures !found ==> delim !in buf[r..w] && Find(Rest(), delim) >= w - r
      ensures !found && i == 1 ==> err.Some?
      ensures !found && i == 0 ==> r == 0 && w == buf.Length
      ensures !found ==> i <= 1 && (i == 0 <==> old(err).None? && |Rest()| >= buf.Length)
    {
      hide Find, Until;
      found, i := Search(delim, 0);
      while !found
        invariant Valid() && Rest() == old(Rest())
        invariant found ==> i < w - r && i == Find(Rest(), delim) && Rest()[..i + 1] == Until(Rest(), delim)
        invariant !found ==> delim !in buf[r..w] && Find(Rest(), delim) >= w - r
        invariant if old(err).Some? then err.Some? else err.Some? ==> found || w - r < buf.Length
        decreases !found, Measure()
      {
        if err.Some? {
          return false, 1;
        }
        var n := w - r;
        Fill();
        found, i := Search(delim, n);
        if !found && w - r >= buf.Length {
          return false, 0;
        }
      }
    }

    /** ReadSlice: through the first delimiter if it lies within one buffer length, else a full
        buffer, else everything up to the error. */
    method ReadSlice(delim: byte) returns (line: seq<byte>, e: Option<Error>)
      requires Valid()
      modifies this, src, buf
      ensures Valid() && line + Rest() == old(Rest())
      ensures e.None? <==> Find(old(Rest()), delim) < Min(|old(Rest())|, buf.Length)
      ensures e.None? ==> line == Until(old(Rest()), delim)
      ensures e.Some? ==> delim !in line
      ensures e.Some? && e != Some(BufferFull) ==> e == Some(src.fin) && Rest() == []
      ensures e == Some(BufferFull) ==> |line| == buf.Length == r == w && line == buf[..]
      ensures e.Some? ==> (e == Some(BufferFull) <==> old(err).None? && |old(Rest())| >= buf.Length)
    {
      hide Find, Until;
      var found, i := Seek(delim);
      if found {
        line := ConsumeThrough(i, delim);
        return line, None;
      }
      line := ConsumeWindow();
      if i == 1 {
        e := ReadErr();
      } else {
        e := Some(BufferFull);
      }
    }

    /** ReadBytes: the shortest prefix of the stream that ends in the delimiter, whatever the buffer
        size; without a delimiter, everything together with the error. */
    method ReadBytes(delim: byte) returns (line: seq<byte>, e: Option<Error>)
      requires Valid()
      modifies this, src, buf
      ensures Valid() && line == Until(old(Rest()), delim) && line + Rest() == old(Rest())
      ensures e.None? <==> delim in old(Rest())
      ensures e.Some? ==> e == Some(src.fin) && Rest() == []
    {
      hide Find, Until;
      line := [];
      while true
        invariant Valid() && line + Rest() == old(Rest()) && delim !in line
        decreases |Rest()|
      {
        ghost var s := Rest();
        UntilAfter(line, s, delim);
        var frag;
        frag, e := ReadSlice(delim);
        Rejoin(line, frag, Rest());
        line := line + frag;
        if e.None? {
          UntilHas(s, delim);
          return;
        }
        if e != Some(BufferFull) {
          assert frag + [] == frag;
          UntilAll(s, delim);
          return;
        }
      }
    }

    /** Put the last byte back, as ReadLine does with a CR that may belong to a CR LF. */
    method PutBack(line: seq<byte>) returns (short: seq<byte>)
      requires Valid() && line != [] && |line| == r == w && line == buf[..w]
      modifies this`r
      ensures Valid() && short == line[..|line| - 1] && short + Rest() == line + old(Rest())
      ensures Rest() != [] && Rest()[0] == line[|line| - 1]
    {
      r := r - 1;
      short := line[..|line| - 1];
      assert buf[r..w] == [line[|line| - 1]];
      assert short + ([line[|line| - 1]] + src.rest) == line + src.rest;
    }

    /** ReadLine: a whole line without its ending, or a prefix of one that can be cut off without
        tearing CR LF apart, or, only at the end of the stream, the error. */
    method ReadLine() returns (line: seq<byte>, isPrefix: bool, e: Option<Error>)
      requires Valid()
      modifies this, src, buf
      ensures Valid()
      ensures e.Some? ==> line == [] && !isPrefix && old(Rest()) == [] == Rest() && e == Some(src.fin)
      ensures isPrefix ==> line + Rest() == old(Rest()) && LF !in line && |line| >= 15 && CleanCut(line, Rest())
      ensures isPrefix ==>
                (GivenUp(err.Some?, Rest(), buf.Length) <==> GivenUp(old(err).Some?, old(Rest()), buf.Length))
      ensures !isPrefix && LF !in old(Rest()) ==> (e.Some? <==> GivenUp(old(err).Some?, old(Rest()), buf.Length))
      ensures e.None? && !isPrefix ==> old(Rest()) != []
      ensures e.None? && !isPrefix && LF in old(Rest()) ==>
                line == TrimEol(Until(old(Rest()), LF)) && Until(old(Rest()), LF) + Rest() == old(Rest())
      ensures e.None? && !isPrefix && LF !in old(Rest()) ==> line == old(Rest()) && Rest() == []
    {
      hide Find, Until, Drains;
      ghost var s := Rest();
      DrainsStep(s, buf.Length);
      line, e := ReadSlice(LF);
      UntilHas(s, LF);
      if e == Some(BufferFull) {
        if line[|line| - 1] == CR {
          line := PutBack(line);
        }
        GivenUpStep(s, line, Rest(), buf.Length, err.Some?);
        return line, true, None;
      }
      if e.Some? {
        assert line + [] == line;
      }
      UntilEnds(s, LF);
      isPrefix := false;
      if |line| == 0 {
        return;
      }
      e := None;
      if line[|line| - 1] == LF {
        line := TrimEol(line);
      }
    }

    /** readLineSlice of textproto: join the fragments. A terminated line always comes back whole and
        without its ending, whatever the buffer size. An unterminated last line comes back whole too,
        unless nothing is left or full buffers drain it exactly; then it is given up for the error. */
    method ReadWholeLine() returns (line: seq<byte>, e: Option<Error>)
      requires Valid()
      modifies this, src, buf
      ensures Valid()
      ensures LF in old(Rest()) ==>
                && e.None? && line == TrimEol(Until(old(Rest()), LF))
                && Until(old(Rest()), LF) + Rest() == old(Rest())
      ensures LF !in old(Rest()) ==> Rest() == [] && (e.None? ==> line == old(Rest()) != [])
      ensures e.Some? ==> e == Some(src.fin) && line == []
      ensures e.Some? <==> LF !in old(Rest()) && GivenUp(old(err).Some?, old(Rest()), buf.Length)
    {
      hide Find, Until, TrimEol, Drains, GivenUp;
      line := [];
      while true
        invariant Valid() && line + Rest() == old(Rest()) && LF !in line && CleanCut(line, Rest())
        invariant LF in Rest() <==> LF in old(Rest())
        invariant GivenUp(err.Some?, Rest(), buf.Length) <==> GivenUp(old(err).Some?, old(Rest()), buf.Length)
        decreases |Rest()|
      {
        ghost var s := Rest();
        UntilAfter(line, s, LF);
        if LF in s { TrimAfter(line, s); }
        var l, more;
        l, more, e := ReadLine();
        if e.Some? {
          return [], e;
        }
        if LF in s { Rejoin(line, Until(s, LF), Rest()); }
        Rejoin(line, l, Rest());
        if more { JoinCut(line, l, Rest()); }
        line := line + l;
        if !more {
          return;
        }
      }
    }
  }

  /** Sixteen bytes without a line ending, in a buffer of sixteen: the line is lost. */
  method LineLost() returns (line: seq<byte>, e: Option<Error>)
    ensures e.Some? && line == []
  {
    var content: seq<byte> := seq(16, _ => 120);
    var src := new ByteSource(content, [], 0);
    var reader := new Reader(src, 16);
    ExactBufferGivenUp(content, 16);
    line, e := reader.ReadWholeLine();
  }

  /** The source gave its error together with its only byte: an empty read reports it while the byte is
      still there. */
  method ErrorBeforeByte() returns (e: Option<Error>, c: byte)
    ensures e.Some? && c == 7
  {
    var src := new ByteSource([7], [Plan(1, true)], 0);
    var reader := new Reader(src, 16);
    assert src.Next(16) == ([7], Some(Source(0))) by { assert [7][..1] == [7]; }
    hide ByteSource.Next;
    reader.Fill();
    assert reader.Rest() == [7];
    var none := new byte[0];
    var n, f;
    n, e := reader.Read(none);
    c, f := reader.ReadByte();
  }
}
