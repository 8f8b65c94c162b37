/** HTTP/1.1 request bodies (bfe_http/transfer.go, sections 3.3.3 and 4.1 of RFC 7230): how the
    sender frames a body and how the receiver finds its end again. */
module Transfer {
  import opened Basics
  import opened BufReader
  import opened Chunked
  import BufWriter

  const TWO_63: int := 0x8000_0000_0000_0000

  // -------------------------------------------------------------------------------- decimals

  /** strconv.FormatInt for a non-negative number. */
  function Decimal(n: nat): (r: string)
    ensures r != ""
  {
    if n < 10 then ['0' + n as char] else Decimal(n / 10) + ['0' + (n % 10) as char]
  }

  function Digits(s: string): Option<nat> {
    if s == "" then Some(0) else
      match Digits(s[..|s| - 1])
      case None => None
      case Some(hi) =>
        var c := s[|s| - 1];
        if '0' <= c <= '9' then Some(hi * 10 + (c - '0') as nat) else None
  }

  /** parseContentLength of a trimmed value: -1 when there is none, no result for a bad one. */
  function ParseContentLength(s: string): Option<int> {
    if s == "" then Some(-1) else
      var signed := s[0] == '+' || s[0] == '-';
      var d := if signed then s[1..] else s;
      if d == "" then None else
        match Digits(d)
        case None => None
        case Some(v) => if v >= TWO_63 || (s[0] == '-' && v > 0) then None else Some(v as int)
  }

  lemma {:induction false} DigitsOfDecimal(n: nat)
    ensures Digits(Decimal(n)) == Some(n)
    ensures Decimal(n)[0] != '+' && Decimal(n)[0] != '-'
  {
    var r := Decimal(n);
    if n < 10 {
      assert r[..0] == "";
    } else {
      DigitsOfDecimal(n / 10);
      assert r[..|r| - 1] == Decimal(n / 10);
      assert r[0] == Decimal(n / 10)[0];
    }
  }

  lemma {:induction false} ContentLengthRoundTrip(n: nat)
    requires n < TWO_63
    ensures ParseContentLength(Decimal(n)) == Some(n)
  {
    DigitsOfDecimal(n);
  }

  // ------------------------------------------------------------------------------ the sender

  /** What a Request tells newTransferWriter. */
  datatype Request = Request(
    method_: string, body: Option<seq<byte>>, contentLength: int, te: seq<string>, http11: bool, hasLengthHeader: bool)

  /** transferWriter after the fields were sanitised. */
  datatype TransferWriter = TransferWriter(
    method_: string, body: Option<seq<byte>>, contentLength: int, te: seq<string>, hasLengthHeader: bool)

  predicate IsChunked(te: seq<string>) { te != [] && te[0] == "chunked" }

  /** newTransferWriter for a request. Reading one byte of a body with an unset length tells whether
      it is really empty. */
  function NewTransferWriter(q: Request): Option<TransferWriter> {
    if q.contentLength != 0 && q.body.None? then None
    else
      var probe := q.body.Some? && q.te == [] && q.http11;
      var empty := probe && q.contentLength == 0 && q.body.value == [];
      var length := if probe && q.contentLength == 0 && !empty then -1 else q.contentLength;
      var te := if probe && length < 0 then ["chunked"] else q.te;
      var body := if empty then None else q.body;
      var te' := if !q.http11 || body.None? then [] else te;
      var length' := if IsChunked(te') then -1 else if body.None? then 0 else length;
      Some(TransferWriter(q.method_, body, length', te', q.hasLengthHeader))
  }

  predicate SendsLength(t: TransferWriter) {
    && !IsChunked(t.te)
    && (t.contentLength > 0
        || (t.contentLength == 0 && t.hasLengthHeader && t.method_ != "GET" && t.method_ != "HEAD"))
  }

  /** The framing fields of a message: the trimmed Content-Length values and the comma-separated
      transfer codings. */
  datatype Fields = Fields(lengths: seq<string>, codings: Option<seq<string>>)

  /** WriteHeader */
  function FieldsOf(t: TransferWriter): Fields {
    if SendsLength(t) && t.contentLength >= 0 then Fields([Decimal(t.contentLength)], None)
    else if IsChunked(t.te) then Fields([], Some(["chunked"]))
    else Fields([], None)
  }

  /** WriteBody, given how io.Copy cut the body into writes: the bytes sent, or no result when it
      reports that the body does not have the declared length. */
  function WriteBody(t: TransferWriter, cuts: seq<seq<byte>>): Option<seq<byte>>
    requires t.body.Some? ==> Concat(cuts) == t.body.value
  {
    match t.body
    case None => if t.contentLength != -1 && t.contentLength != 0 then None else Some([])
    case Some(b) =>
      if IsChunked(t.te) then Some(ChunksOf(cuts) + LAST_CHUNK + CRLF)
      else if t.contentLength == -1 then Some(b)
      else if t.contentLength != |b| then None
      else Some(b)
  }

  lemma {:induction false} ChunksAppend(a: seq<seq<byte>>, d: seq<byte>)
    ensures ChunksOf(a + [d]) == ChunksOf(a) + ChunkOf(d)
  {
    if a == [] {
      assert a + [d] == [d] && [d][1..] == [];
    } else {
      assert (a + [d])[1..] == a[1..] + [d];
      ChunksAppend(a[1..], d);
    }
  }

  /** io.Copy into a chunkedWriter, one Write per cut, then Close. */
  method CopyChunked(cuts: seq<seq<byte>>, w: BufWriter.Writer) returns (e: Option<BufWriter.Error>)
    requires w.Valid()
    modifies w, w.wr, w.buf
    ensures w.Valid() && (e.None? ==> w.accepted == old(w.accepted) + (ChunksOf(cuts) + LAST_CHUNK))
    ensures old(w.Healthy()) ==> w.Healthy() && e.None?
  {
    hide ChunkOf;
    var cw := new ChunkedWriter(w);
    for i := 0 to |cuts|
      invariant w.Valid() && w.accepted == old(w.accepted) + ChunksOf(cuts[..i])
      invariant old(w.Healthy()) ==> w.Healthy()
    {
      var n;
      n, e := cw.Write(cuts[i]);
      if e.Some? {
        return;
      }
      ChunksAppend(cuts[..i], cuts[i]);
      assert cuts[..i] + [cuts[i]] == cuts[..i + 1];
      assert old(w.accepted) + ChunksOf(cuts[..i]) + ChunkOf(cuts[i])
          == old(w.accepted) + (ChunksOf(cuts[..i]) + ChunkOf(cuts[i]));
    }
    assert cuts[..|cuts|] == cuts;
    e := cw.Close();
  }

  /** transferWriter.WriteBody: a success means that exactly the framed body was accepted, and with a
      healthy connection only a body of the wrong length fails. */
  method SendBody(t: TransferWriter, cuts: seq<seq<byte>>, w: BufWriter.Writer) returns (ok: bool)
    requires w.Valid() && (t.body.Some? ==> Concat(cuts) == t.body.value)
    modifies w, w.wr, w.buf
    ensures w.Valid()
    ensures ok ==> WriteBody(t, cuts).Some? && w.accepted == old(w.accepted) + WriteBody(t, cuts).value
    ensures WriteBody(t, cuts).None? ==> !ok
    ensures old(w.Healthy()) ==> w.Healthy() && (ok <==> WriteBody(t, cuts).Some?)
  {
    hide ChunksOf, Concat;
    if t.body.None? {
      return t.contentLength == -1 || t.contentLength == 0;
    }
    var b := t.body.value;
    var n, e;
    if IsChunked(t.te) {
      e := CopyChunked(cuts, w);
      if e.Some? {
        return false;
      }
      n, e := w.WriteString(CRLF);
      if e.None? { assert CRLF[..n] == CRLF; }
      return e.None?;
    }
    var limit := if t.contentLength == -1 then |b| else if t.contentLength < 0 then 0 else Min(t.contentLength, |b|);
    n, e := w.Write(b[..limit]);
    if e.None? && limit == |b| { assert b[..limit][..n] == b; }
    ok := e.None? && (t.contentLength == -1 || t.contentLength == |b|);
  }

  // ---------------------------------------------------------------------------- the receiver

  /** fixTransferEncoding: the codings in effect, or no result for an unsupported list. */
  function FixTransferEncoding(codings: seq<string>): Option<seq<string>> {
    if codings == [] || codings[0] == "identity" then Some([])
    else if codings[0] != "chunked" then None
    else
      match FixTransferEncoding(codings[1..])
      case None => None
      case Some(te) => Some(["chunked"] + te)
  }

  /** fixLength for a request: -1 for chunked, else the declared length or 0. */
  function FixLength(method_: string, lengths: seq<string>, te: seq<string>): Option<int> {
    if exists i :: 0 <= i < |lengths| && lengths[i] != lengths[0] then None
    else if method_ == "HEAD" then
      if lengths != [] && lengths[0] != "0" then None else Some(0)
    else if IsChunked(te) then Some(-1)
    else if lengths != [] && lengths[0] != "" then ParseContentLength(lengths[0])
    else Some(0)
  }

  datatype Source = Empty | Limited(n: nat) | ChunkedBody

  /** readTransfer for a request: which kind of body follows. */
  function ReadTransfer(method_: string, h: Fields): Option<Source> {
    match (if h.codings.None? then Some([]) else FixTransferEncoding(h.codings.value))
    case None => None
    case Some(te) =>
      if |te| > 1 then None else
        var lengths := if te != [] then [] else h.lengths;
        match FixLength(method_, lengths, te)
        case None => None
        case Some(n) =>
          if IsChunked(te) then Some(if method_ == "HEAD" then Empty else ChunkedBody)
          else if n > 0 then Some(Limited(n))
          else Some(Empty)
  }

  datatype Received = Received(body: seq<byte>, after: seq<byte>)

  /** What reading the body to its end yields, and what is then left on the connection. */
  function Receive(src: Source, s: seq<byte>, limit: nat): Option<Received> {
    match src
    case Empty => Some(Received([], s))
    case Limited(n) => if |s| < n then None else Some(Received(s[..n], s[n..]))
    case ChunkedBody =>
      match Decode(s, 0, limit)
      case None => None
      case Some(d) => if CRLF <= d.after then Some(Received(d.body, d.after[2..])) else None
  }

  // ------------------------------------------------------------------------------ round trip

  /** A body of unknown length under a transfer coding other than chunked is sent without any
      framing. */
  predicate Unframed(q: Request) {
    q.body.Some? && q.body.value != [] && q.contentLength == -1 && q.te != [] && q.te[0] != "chunked"
  }

  function BodyOf(q: Request): seq<byte> { if q.body.Some? then q.body.value else [] }

  /** Every HTTP/1.1 request that is sent without error arrives with the same body and leaves exactly
      the following bytes unread, however the body was cut into writes, if and only if it was not
      sent unframed. */
  lemma {:induction false} RequestRoundTripIff(q: Request, cuts: seq<seq<byte>>, after: seq<byte>, limit: nat)
    requires q.http11 && q.method_ != "HEAD" && -TWO_63 <= q.contentLength < TWO_63
    requires Concat(cuts) == BodyOf(q) && Moderate(cuts) && 16 <= limit
    requires NewTransferWriter(q).Some?
    requires var t := NewTransferWriter(q).value; t.body.Some? ==> Concat(cuts) == t.body.value
    requires WriteBody(NewTransferWriter(q).value, cuts).Some?
    ensures var t := NewTransferWriter(q).value;
            var src := ReadTransfer(q.method_, FieldsOf(t));
            && src.Some?
            && (Receive(src.value, WriteBody(t, cuts).value + after, limit) == Some(Received(BodyOf(q), after))
                <==> !Unframed(q))
  {
    var t := NewTransferWriter(q).value;
    var wire := WriteBody(t, cuts).value;
    if IsChunked(t.te) {
      ModerateFits(cuts, limit);
      ChunkedArrives(q, cuts, after, limit);
    } else if t.contentLength > 0 {
      LengthArrives(t);
      assert (wire + after)[..|wire|] == wire && (wire + after)[|wire|..] == after;
    } else if SendsLength(t) {
      LengthArrives(t);
      assert wire + after == after;
    } else {
      assert FixTransferEncoding([]) == Some([]);
      if wire != [] { assert |wire + after| != |after|; } else { assert wire + after == after; }
    }
  }

  /** One byte of unknown length under gzip: it is sent bare, the receiver sees no body, and the byte is
      read as the start of the next request. */
  lemma {:induction false} UnframedBodyLost(after: seq<byte>, limit: nat)
    ensures var q := Request("POST", Some([7]), -1, ["gzip"], true, false);
            && Unframed(q) && NewTransferWriter(q).Some?
            && var t := NewTransferWriter(q).value;
               && t.body == Some([7]) && Concat([[7]]) == [7] && WriteBody(t, [[7]]) == Some([7])
               && ReadTransfer(q.method_, FieldsOf(t)) == Some(Empty)
               && Receive(Empty, [7] + after, limit) == Some(Received([], [7] + after))
  {
    assert [[7]][1..] == [];
    assert Concat([[7]]) == [7] + Concat([]) == [7];
    assert FixTransferEncoding([]) == Some([]);
  }

  lemma {:induction false} LengthArrives(t: TransferWriter)
    requires SendsLength(t) && 0 <= t.contentLength < TWO_63 && t.method_ != "HEAD"
    ensures ReadTransfer(t.method_, FieldsOf(t))
         == Some(if t.contentLength > 0 then Limited(t.contentLength) else Empty)
  {
    ContentLengthRoundTrip(t.contentLength);
    assert [Decimal(t.contentLength)][0] == Decimal(t.contentLength);
  }

  lemma {:induction false} ChunkedArrives(q: Request, cuts: seq<seq<byte>>, after: seq<byte>, limit: nat)
    requires q.method_ != "HEAD" && Fits(cuts, limit) && 3 <= limit
    requires NewTransferWriter(q).Some? && IsChunked(NewTransferWriter(q).value.te)
    ensures var t := NewTransferWriter(q).value;
            && ReadTransfer(q.method_, FieldsOf(t)) == Some(ChunkedBody)
            && Receive(ChunkedBody, ChunksOf(cuts) + LAST_CHUNK + CRLF + after, limit)
                  == Some(Received(Concat(cuts), after))
  {
    hide Decode, ChunksOf, Fits, Concat;
    var w := ChunksOf(cuts) + LAST_CHUNK;
    assert w + CRLF + after == ChunksOf(cuts) + LAST_CHUNK + (CRLF + after);
    ChunksReadBack(cuts, CRLF + after, limit);
    assert (CRLF + after)[2..] == after;
    assert FixTransferEncoding(["chunked"]) == Some(["chunked"] + []) by { assert ["chunked"][1..] == []; }
  }

  // -------------------------------------------------------------------- reading a body, step by step

  /** A body with a declared length: io.LimitedReader over the connection, inside body.readLocked. */
  class LimitedBody {
    const r: Reader
    var n: nat

    constructor (r: Reader, n: nat)
      ensures this.r == r && this.n == n
    {
      this.r := r;
      this.n := n;
    }

    /** Read takes the next bytes of the body and nothing beyond it. */
    method Read(p: array<byte>) returns (k: nat, e: Option<Fault>)
      requires r.Valid() && p.Length > 0 && p != r.buf
      modifies this, r, r.src, r.buf, p
      ensures r.Valid() && k <= p.Length && k <= old(n) && n == old(n) - k && p[..k] + r.Rest() == old(r.Rest())
      ensures e.None? && k == 0 ==> r.Measure() < old(r.Measure())
      ensures e == Some(EOF) ==> n == 0
      ensures e.Some? && n > 0 ==> r.Rest() == [] && e == Some(Early(r.src.fin))
      ensures e.Some? && n == 0 ==> e == Some(EOF) || e == Some(Wire(r.src.fin))
      ensures e.Some? && e != Some(EOF) ==> r.Rest() == [] && (n > 0 || r.src.fin != Source(EOF_CODE))
    {
      if n == 0 {
        assert p[..0] == [];
        return 0, Some(EOF);
      }
      var b := new byte[Min(p.Length, n)];
      var f;
      k, f := r.Read(b);
      CopyOut(b, p, k);
      n := n - k;
      if f.None? {
        return k, None;
      }
      if f == Some(Source(EOF_CODE)) {
        e := Some(if n > 0 then UnexpectedEOF else EOF);
      } else {
        e := Some(Wire(f.value));
      }
    }

    /** With any buffer size the whole body arrives and the bytes behind it stay unread. */
    method ReadAll(m: nat) returns (body: seq<byte>, e: Fault)
      requires r.Valid() && m > 0
      modifies this, r, r.src, r.buf
      ensures r.Valid() && body + r.Rest() == old(r.Rest()) && |body| <= old(n)
      ensures |old(r.Rest())| >= old(n) ==> |body| == old(n)
      ensures e == EOF ==> |body| == old(n)
      ensures |old(r.Rest())| > old(n) || (|old(r.Rest())| == old(n) && r.src.fin == Source(EOF_CODE)) ==> e == EOF
    {
      body := [];
      var p := new byte[m](_ => 0);
      while true
        invariant r.Valid() && fresh(p) && p != r.buf && p.Length == m
        invariant body + r.Rest() == old(r.Rest()) && |body| + n == old(n)
        decreases n, r.Measure()
      {
        ghost var s := r.Rest();
        var k, f := Read(p);
        Rejoin(body, p[..k], r.Rest());
        body := body + p[..k];
        if f.Some? {
          return body, f.value;
        }
      }
    }
  }

  /** The chunks decode and an empty trailer section follows. */
  ghost predicate Framed(d: Option<Decoded>) { d.Some? && CRLF <= d.value.after }

  /** A chunked body with its trailer section. */
  class TrailedBody {
    const cr: ChunkedReader
    var hdr: bool

    constructor (r: Reader)
      ensures fresh(cr) && cr.r == r && cr.n == 0 && cr.err.None? && hdr
    {
      cr := new ChunkedReader(r);
      hdr := true;
    }

    /** readTrailer. Trailer fields are not modelled: where they would start, the body ends with the
        fault TrailerFields. */
    method ReadTrailer() returns (e: Option<Fault>)
      requires cr.r.Valid()
      modifies cr.r, cr.r.src, cr.r.buf
      ensures cr.r.Valid()
      ensures CRLF <= old(cr.r.Rest()) <==> e.None?
      ensures e.None? ==> cr.r.Rest() == old(cr.r.Rest())[2..]
      ensures e.Some? ==> e == Some(if |old(cr.r.Rest())| < 2 then UnexpectedEOF else TrailerFields)
    {
      ghost var s := cr.r.Rest();
      var buf, f := cr.r.Peek(2);
      if buf == CRLF {
        assert s[..2] == CRLF;
        var c0, _ := cr.r.ReadByte();
        var c1, _ := cr.r.ReadByte();
        assert [c0] + ([c1] + cr.r.Rest()) == s;
        assert s[2..] == cr.r.Rest();
        return None;
      }
      if |buf| < 2 {
        return Some(UnexpectedEOF);
      }
      return Some(TrailerFields);
    }

    /** Read; the end of the chunks is the end of the body only once the trailer was read. */
    method Read(p: array<byte>) returns (k: nat, e: Option<Fault>)
      requires cr.r.Valid() && p.Length > 0 && p != cr.r.buf && cr.err.None? && hdr
      modifies this, cr, cr.r, cr.r.src, cr.r.buf, p
      ensures cr.r.Valid() && k <= p.Length && (e.None? ==> cr.err.None? && hdr)
      ensures e.None? ==>
                || |cr.r.Rest()| < old(|cr.r.Rest()|)
                || (|cr.r.Rest()| == old(|cr.r.Rest()|) && cr.r.Measure() < old(cr.r.Measure()))
      ensures Framed(old(cr.Pending())) ==>
                var d := old(cr.Pending()).value;
                if d.body == [] then k == 0 && e == Some(EOF) && cr.r.Rest() == d.after[2..]
                else e.None? && p[..k] <= d.body && cr.Pending() == Some(Decoded(d.body[k..], d.after))
      ensures e.None? ==> (Framed(cr.Pending()) <==> Framed(old(cr.Pending())))
      ensures e == Some(EOF) ==> Framed(old(cr.Pending()))
      ensures p[..k] + (if e.None? then cr.Left() else []) == old(cr.Left())
    {
      hide Decode, CutShort, Salvaged;
      k, e := cr.Read(p);
      if e == Some(EOF) {
        var f := ReadTrailer();
        if f.Some? {
          e := f;
        }
        hdr := false;
      }
    }

    /** Reading to the end succeeds exactly on a complete body. A connection that ends within a chunk
        is noticed here, because no trailer section follows. */
    method ReadAll(m: nat) returns (body: seq<byte>, e: Fault)
      requires cr.r.Valid() && m > 0 && cr.err.None? && hdr
      modifies this, cr, cr.r, cr.r.src, cr.r.buf
      ensures cr.r.Valid() && (e == EOF <==> Framed(old(cr.Pending())))
      ensures Framed(old(cr.Pending())) ==>
                var d := old(cr.Pending()).value;
                body == d.body && e == EOF && cr.r.Rest() == d.after[2..]
      ensures body == old(cr.Left())
    {
      hide Decode, Salvaged;
      body := [];
      var p := new byte[m](_ => 0);
      ghost var was := cr.Pending();
      while true
        invariant cr.r.Valid() && cr.err.None? && hdr && fresh(p) && p != cr.r.buf && p.Length == m
        invariant Framed(was) <==> Framed(cr.Pending())
        invariant body + cr.Left() == old(cr.Left())
        invariant Framed(was) ==>
          && cr.Pending().Some? && body + cr.Pending().value.body == was.value.body
          && cr.Pending().value.after == was.value.after
        decreases |cr.r.Rest()|, cr.r.Measure()
      {
        ghost var d := cr.Pending();
        var k, f := Read(p);
        if Framed(d) { Carry(body, d.value.body, p[..k]); }
        Rejoin(body, p[..k], if f.None? then cr.Left() else []);
        body := body + p[..k];
        if f.Some? {
          assert p[..0] == [];
          return body, f.value;
        }
      }
    }
  }

  /** The receiving end as a whole: whatever kind of body readTransfer prepared, reading it to the end
      succeeds only when Receive does and yields what it says, for every buffer size and every way the
      connection cuts its bytes. A connection that fails right behind a body of declared length may
      report that with the last bytes; otherwise the success of Receive is also enough. */
  method ReadBody(src: Source, r: Reader, m: nat) returns (body: seq<byte>, ok: bool)
    requires r.Valid() && m > 0
    modifies r, r.src, r.buf
    ensures r.Valid() && (ok ==> Receive(src, old(r.Rest()), r.buf.Length).Some?)
    ensures Receive(src, old(r.Rest()), r.buf.Length).Some?
            && (src.Limited? && |old(r.Rest())| == src.n ==> r.src.fin == Source(EOF_CODE)) ==>
              ok
    ensures Receive(src, old(r.Rest()), r.buf.Length).Some? ==>
              var got := Receive(src, old(r.Rest()), r.buf.Length).value;
              body == got.body && r.Rest() == got.after
  {
    hide Decode;
    ghost var s := r.Rest();
    match src
    case Empty =>
      return [], true;
    case Limited(n) =>
      var b := new LimitedBody(r, n);
      var e;
      body, e := b.ReadAll(m);
      if |s| >= n { assert s[..n] == body && s[n..] == r.Rest(); }
      ok := e == EOF;
    case ChunkedBody =>
      var b := new TrailedBody(r);
      var e;
      body, e := b.ReadAll(m);
      ok := e == EOF;
  }

  /** newTransferWriter, WriteBody and Flush on one side, readTransfer and reading to the end on the
      other: over a connection that cuts the bytes in any way, a request that was sent arrives with its
      body and leaves what follows unread, if and only if it was not sent unframed. */
  method Exchange(q: Request, cuts: seq<seq<byte>>, writes: seq<BufWriter.Plan>, wsize: int,
                  after: seq<byte>, arrivals: seq<Plan>, rsize: nat, code: nat, m: nat)
    returns (sent: bool, body: seq<byte>, ok: bool, r: Reader?)
    requires q.http11 && q.method_ != "HEAD" && -TWO_63 <= q.contentLength < TWO_63
    requires Concat(cuts) == BodyOf(q) && Moderate(cuts) && m > 0
    ensures writes == [] ==> (sent <==> NewTransferWriter(q).Some? && WriteBody(NewTransferWriter(q).value, cuts).Some?)
    ensures sent ==> r != null && r.Valid()
    ensures sent && (after != [] || code == EOF_CODE) ==>
              (ok && body == BodyOf(q) && r.Rest() == after <==> !Unframed(q))
  {
    hide Concat, Moderate, WriteBody, ReadTransfer, Receive, FieldsOf, NewTransferWriter;
    sent, body, ok, r := false, [], false, null;
    SameBody(q);
    var t := NewTransferWriter(q);
    if t.None? {
      return;
    }
    var sink := new BufWriter.ByteSink(writes);
    var w := new BufWriter.Writer(sink, wsize);
    sent := SendBody(t.value, cuts, w);
    var e := w.Flush();
    sent := sent && e.None?;
    if !sent {
      return;
    }
    ghost var wire := WriteBody(t.value, cuts).value;
    assert sink.got == wire;
    var conn := new ByteSource(sink.got + after, arrivals, code);
    r := new Reader(conn, rsize);
    RequestRoundTripIff(q, cuts, after, r.buf.Length);
    var src := ReadTransfer(q.method_, FieldsOf(t.value));
    DeclaredLength(q, cuts);
    body, ok := ReadBody(src.value, r, m);
  }

  lemma {:induction false} SameBody(q: Request)
    ensures NewTransferWriter(q).Some? && NewTransferWriter(q).value.body.Some? ==>
              NewTransferWriter(q).value.body.value == BodyOf(q)
  {
  }

  /** A declared length is the length of what is sent. */
  lemma {:induction false} DeclaredLength(q: Request, cuts: seq<seq<byte>>)
    requires q.method_ != "HEAD" && -TWO_63 <= q.contentLength < TWO_63 && NewTransferWriter(q).Some?
    requires var t := NewTransferWriter(q).value; t.body.Some? ==> Concat(cuts) == t.body.value
    requires WriteBody(NewTransferWriter(q).value, cuts).Some?
    ensures var t := NewTransferWriter(q).value;
            var src := ReadTransfer(q.method_, FieldsOf(t));
            src.Some? && src.value.Limited? ==> src.value.n == |WriteBody(t, cuts).value|
  {
    var t := NewTransferWriter(q).value;
    if SendsLength(t) {
      LengthArrives(t);
    }
  }
}
