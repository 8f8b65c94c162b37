/** Chunked transfer coding (bfe_http/chunked.go, section 4.1 of RFC 7230). */
module Chunked {
  import opened Basics
  import opened BufReader
  import BufWriter

  const MAX_LINE: nat := 4096
  const TWO_64: int := 0x1_0000_0000_0000_0000
  const CRLF: seq<byte> := [CR, LF]

  // ------------------------------------------------------------------------------ chunk sizes

  predicate IsSpace(b: byte) { b == 32 || b == 9 || b == LF || b == CR }

  function Trim(s: seq<byte>): (r: seq<byte>)
    ensures r <= s
  {
    if s != [] && IsSpace(s[|s| - 1]) then Trim(s[..|s| - 1]) else s
  }

  function HexValue(b: byte): Option<nat> {
    if 48 <= b <= 57 then Some(b - 48)
    else if 97 <= b <= 102 then Some(b - 97 + 10)
    else if 65 <= b <= 70 then Some(b - 65 + 10)
    else None
  }

  /** parseHexUint as a fold: 64-bit, so leading digits fall off. */
  function ParseHex(s: seq<byte>): Option<nat> {
    if s == [] then Some(0) else
      match ParseHex(s[..|s| - 1])
      case None => None
      case Some(hi) =>
        match HexValue(s[|s| - 1])
        case None => None
        case Some(d) => Some(hi * 16 % TWO_64 + d)
  }

  ghost predicate AllHex(s: seq<byte>) {
    forall i :: 0 <= i < |s| ==> HexValue(s[i]).Some?
  }

  /** The number that hex digits write down, however long. */
  ghost function HexNumber(s: seq<byte>): nat
    requires AllHex(s)
  {
    if s == [] then 0 else HexNumber(s[..|s| - 1]) * 16 + HexValue(s[|s| - 1]).value
  }

  lemma {:induction false} Wraps(x: int, a: int, b: nat)
    requires x == a * TWO_64 + b && b < TWO_64
    ensures x % TWO_64 == b
  {
  }

  lemma {:induction false} ShiftWraps(hi: nat, d: nat)
    requires d < 16
    ensures (hi % TWO_64) * 16 % TWO_64 + d == (hi * 16 + d) % TWO_64
  {
    var k, r := hi / TWO_64, hi % TWO_64;
    var q, t := r / (TWO_64 / 16), r % (TWO_64 / 16);
    Wraps(r * 16, q, t * 16);
    Wraps(hi * 16 + d, 16 * k + q, t * 16 + d);
  }

  /** Parsing fails exactly on a byte that is no hex digit, and otherwise keeps the low 64 bits. */
  lemma {:induction false} ParseHexMeans(s: seq<byte>)
    ensures ParseHex(s).Some? <==> AllHex(s)
    ensures AllHex(s) ==> ParseHex(s) == Some(HexNumber(s) % TWO_64)
    ensures AllHex(s) ==> (ParseHex(s) == Some(HexNumber(s)) <==> HexNumber(s) < TWO_64)
  {
    if s != [] {
      var n := |s| - 1;
      ParseHexMeans(s[..n]);
      assert AllHex(s) <==> AllHex(s[..n]) && HexValue(s[n]).Some?;
      if AllHex(s) { ShiftWraps(HexNumber(s[..n]), HexValue(s[n]).value); }
    }
  }

  /** The loop of parseHexUint: an error exactly on a byte that is no hex digit, otherwise the number
      modulo 2^64. */
  method ParseHexUint(v: seq<byte>) returns (r: Option<nat>)
    ensures r.Some? <==> AllHex(v)
    ensures r.Some? ==> r.value == HexNumber(v) % TWO_64
    ensures r == ParseHex(v)
  {
    ParseHexMeans(v);
    var n := 0;
    for i := 0 to |v|
      invariant ParseHex(v[..i]) == Some(n)
    {
      assert v[..i + 1][..i] == v[..i];
      var d := HexValue(v[i]);
      if d.None? {
        return None;
      }
      n := n * 16 % TWO_64 + d.value;
    }
    assert v[..|v|] == v;
    return Some(n);
  }

  function HexDigit(d: int): byte
    requires 0 <= d < 16
  {
    if d < 10 then 48 + d else 97 + d - 10
  }

  /** Formatting with %x. */
  function Hex(n: nat): (r: seq<byte>)
    ensures r != []
  {
    if n < 16 then [HexDigit(n)] else Hex(n / 16) + [HexDigit(n % 16)]
  }

  /** What %x writes is the number again, for every number. */
  lemma {:induction false} HexWrites(n: nat)
    ensures AllHex(Hex(n)) && HexNumber(Hex(n)) == n
    ensures forall i :: 0 <= i < |Hex(n)| ==> !IsSpace(Hex(n)[i])
  {
    if n >= 16 {
      HexWrites(n / 16);
      assert Hex(n)[..|Hex(n)| - 1] == Hex(n / 16);
    } else {
      assert Hex(n)[..0] == [];
    }
  }

  /** A size is read back if and only if it fits in 64 bits. */
  lemma {:induction false} HexRoundTripIff(n: nat)
    ensures ParseHex(Hex(n)) == Some(n % TWO_64)
    ensures ParseHex(Hex(n)) == Some(n) <==> n < TWO_64
  {
    HexWrites(n);
    ParseHexMeans(Hex(n));
  }

  lemma {:induction false} TrimLine(s: seq<byte>)
    requires s != [] && !IsSpace(s[|s| - 1])
    ensures Trim(s + CRLF) == s
  {
    assert (s + CRLF)[..|s| + 1] == s + [CR];
    assert (s + [CR])[..|s|] == s;
    assert Trim(s + CRLF) == Trim(s + [CR]) == Trim(s);
  }

  // ------------------------------------------------------------------------- the coding itself

  /** What chunkedWriter.Write puts on the wire for one call; nothing for an empty one. */
  function ChunkOf(data: seq<byte>): seq<byte> {
    if data == [] then [] else Hex(|data|) + CRLF + data + CRLF
  }

  function ChunksOf(writes: seq<seq<byte>>): seq<byte> {
    if writes == [] then [] else ChunkOf(writes[0]) + ChunksOf(writes[1..])
  }

  /** What Close writes. */
  const LAST_CHUNK: seq<byte> := [48, CR, LF]

  function Concat(writes: seq<seq<byte>>): seq<byte> {
    if writes == [] then [] else writes[0] + Concat(writes[1..])
  }

  datatype Decoded = Decoded(body: seq<byte>, after: seq<byte>)

  /** The chunk-size line at the head of s, if it is complete within `limit` bytes and well formed. */
  function SizeLine(s: seq<byte>, limit: nat): (r: Option<(nat, seq<byte>)>)
    ensures r.Some? ==> |r.value.1| < |s|
  {
    var line := Until(s, LF);
    if Find(s, LF) >= Min(|s|, limit) || |line| >= MAX_LINE then None
    else
      match ParseHex(Trim(line))
      case None => None
      case Some(n) => Some((n, s[|line|..]))
  }

  /** Decoding as a whole: n bytes of the current chunk are still to come, then further chunks up to
      the one of size 0. */
  function Decode(s: seq<byte>, n: nat, limit: nat): Option<Decoded>
    decreases |s|
  {
    if n > 0 then
      if |s| < n + 2 || s[n..n + 2] != CRLF then None
      else
        match Decode(s[n + 2..], 0, limit)
        case None => None
        case Some(d) => Some(Decoded(s[..n] + d.body, d.after))
    else
      match SizeLine(s, limit)
      case None => None
      case Some((k, rest)) => if k == 0 then Some(Decoded([], rest)) else Decode(rest, k, limit)
  }

  /** The data of the chunks up to the first fault, or to the end. */
  function Salvaged(s: seq<byte>, n: nat, limit: nat): seq<byte>
    decreases |s|
  {
    if n > 0 then
      if |s| < n + 2 || s[n..n + 2] != CRLF then s[..Min(n, |s|)]
      else s[..n] + Salvaged(s[n + 2..], 0, limit)
    else
      match SizeLine(s, limit)
      case None => []
      case Some((k, rest)) => if k == 0 then [] else Salvaged(rest, k, limit)
  }

  /** Of a body that decodes nothing is missing. */
  lemma {:induction false} SalvagedAll(s: seq<byte>, n: nat, limit: nat)
    requires Decode(s, n, limit).Some?
    ensures Salvaged(s, n, limit) == Decode(s, n, limit).value.body
    decreases |s|
  {
    hide SizeLine;
    if n > 0 {
      SalvagedAll(s[n + 2..], 0, limit);
    } else {
      var (k, rest) := SizeLine(s, limit).value;
      if k > 0 { SalvagedAll(rest, k, limit); }
    }
  }

  /** What was taken comes first. */
  lemma {:induction false} SalvagedStep(s: seq<byte>, n: nat, k: nat, limit: nat)
    requires 0 < n && k <= n && k <= |s|
    ensures k < n ==> Salvaged(s, n, limit) == s[..k] + Salvaged(s[k..], n - k, limit)
    ensures k == n ==>
              Salvaged(s, n, limit) == s[..k] + (if CRLF <= s[k..] then Salvaged(s[k..][2..], 0, limit) else [])
    ensures k == |s| ==> Salvaged(s, n, limit) == s
  {
    hide SizeLine;
    var t := s[k..];
    if |s| >= n + 2 { assert t[n - k..n - k + 2] == s[n..n + 2] && t[n - k + 2..] == s[n + 2..]; }
    if k == n && |t| >= 2 { assert CRLF <= t <==> s[n..n + 2] == CRLF; }
    if k < n {
      if |s| < n + 2 || s[n..n + 2] != CRLF {
        assert s[..Min(n, |s|)] == s[..k] + t[..Min(n - k, |t|)];
      } else {
        assert s[..n] == s[..k] + t[..n - k];
      }
    }
  }

  /** The stream ends inside the data of a chunk, or right behind it. */
  ghost predicate CutShort(s: seq<byte>, n: nat, limit: nat)
    decreases |s|
  {
    if n > 0 then
      |s| <= n || (|s| >= n + 2 && s[n..n + 2] == CRLF && CutShort(s[n + 2..], 0, limit))
    else
      var head := SizeLine(s, limit);
      head.Some? && head.value.0 > 0 && CutShort(head.value.1, head.value.0, limit)
  }

  lemma {:induction false} SizeLineReadsBack(n: nat, s: seq<byte>, limit: nat)
    requires |Hex(n)| + 2 <= limit && |Hex(n)| + 2 < MAX_LINE
    ensures SizeLine(Hex(n) + CRLF + s, limit) == Some((n % TWO_64, s))
  {
    hide Find, Until, Trim, ParseHex, Hex;
    HexWrites(n);
    HexRoundTripIff(n);
    var h := Hex(n);
    var w := h + CRLF + s;
    FindIn(w, LF, |h| + 1);
    UntilAt(w, |h| + 1);
    assert w[..|h| + 2] == h + CRLF && w[|h| + 2..] == s;
    TrimLine(h);
  }

  lemma {:induction false} UntilAt(s: seq<byte>, i: nat)
    requires i < |s| && Find(s, LF) == i
    ensures Until(s, LF) == s[..i + 1]
  {
  }

  /** The size lines of all writes fit into the reader's buffer. */
  ghost predicate Fits(writes: seq<seq<byte>>, limit: nat) {
    forall i :: 0 <= i < |writes| ==>
      |writes[i]| < TWO_64 && |Hex(|writes[i]|)| + 2 <= limit && |Hex(|writes[i]|)| + 2 < MAX_LINE
  }

  function Power16(k: nat): nat { if k == 0 then 1 else 16 * Power16(k - 1) }

  lemma {:induction false} HexShort(n: nat, k: nat)
    requires 0 < k && n < Power16(k)
    ensures |Hex(n)| <= k
    decreases k
  {
    if n >= 16 {
      assert Power16(1) == 16;
      HexShort(n / 16, k - 1);
    }
  }

  /** Writes of less than 2^56 bytes. */
  ghost predicate Moderate(writes: seq<seq<byte>>) {
    forall i :: 0 <= i < |writes| ==> |writes[i]| < 0x100_0000_0000_0000
  }

  /** The size lines of such writes fit into every buffer a reader can have. */
  lemma {:induction false} ModerateFits(writes: seq<seq<byte>>, limit: nat)
    requires Moderate(writes) && 16 <= limit
    ensures Fits(writes, limit)
  {
    Powers();
    forall i | 0 <= i < |writes|
      ensures |Hex(|writes[i]|)| + 2 <= 16
    {
      HexShort(|writes[i]|, 14);
    }
  }

  /** One chunk in front of a decodable stream. */
  lemma {:induction false} ChunkReadsBack(d: seq<byte>, rest: seq<byte>, limit: nat)
    requires Fits([d], limit) && Decode(rest, 0, limit).Some?
    ensures var r := Decode(rest, 0, limit).value;
            Decode(ChunkOf(d) + rest, 0, limit) == Some(Decoded(d + r.body, r.after))
  {
    hide Hex, SizeLine;
    assert [d][0] == d;
    var r := Decode(rest, 0, limit).value;
    if d == [] {
      assert ChunkOf(d) + rest == rest && d + r.body == r.body;
    } else {
      var s := d + CRLF + rest;
      assert ChunkOf(d) + rest == Hex(|d|) + CRLF + s;
      SizeLineReadsBack(|d|, s, limit);
      InsideChunk(d, rest, limit);
    }
  }

  lemma {:induction false} InsideChunk(d: seq<byte>, rest: seq<byte>, limit: nat)
    requires d != [] && Decode(rest, 0, limit).Some?
    ensures var r := Decode(rest, 0, limit).value;
            Decode(d + CRLF + rest, |d|, limit) == Some(Decoded(d + r.body, r.after))
  {
    hide SizeLine;
    var s := d + CRLF + rest;
    assert s[|d|..|d| + 2] == CRLF && s[|d| + 2..] == rest && s[..|d|] == d;
  }

  /** Chunking undone: however the body was cut into writes, decoding the wire gives back the whole
      body and leaves exactly the bytes after the last chunk. */
  lemma {:induction false} ChunksReadBack(writes: seq<seq<byte>>, after: seq<byte>, limit: nat)
    requires Fits(writes, limit) && 3 <= limit
    ensures Decode(ChunksOf(writes) + LAST_CHUNK + after, 0, limit) == Some(Decoded(Concat(writes), after))
    decreases |writes|
  {
    hide Hex, SizeLine, ChunkOf;
    if writes == [] {
      HexZero();
      SizeLineReadsBack(0, after, limit);
      assert ChunksOf(writes) + LAST_CHUNK + after == Hex(0) + CRLF + after;
    } else {
      var rest := ChunksOf(writes[1..]) + LAST_CHUNK + after;
      ChunksReadBack(writes[1..], after, limit);
      ChunkReadsBack(writes[0], rest, limit);
      assert ChunksOf(writes) + LAST_CHUNK + after == ChunkOf(writes[0]) + rest;
    }
  }

  /** "1" and k times "0". */
  function OneAndNoughts(k: nat): seq<byte> {
    [49] + seq(k, _ => 48)
  }

  lemma {:induction false} HexPower(k: nat)
    ensures Hex(Power16(k)) == OneAndNoughts(k)
  {
    if k > 0 {
      HexPower(k - 1);
      assert OneAndNoughts(k) == OneAndNoughts(k - 1) + [48];
      assert Power16(k) / 16 == Power16(k - 1) && Power16(k) % 16 == 0;
    }
  }

  lemma {:induction false} Powers()
    ensures Power16(14) == 0x100_0000_0000_0000 && Power16(16) == TWO_64
  {
    assert Power16(4) == 0x1_0000;
    assert Power16(8) == 0x1_0000_0000;
    assert Power16(12) == 0x1_0000_0000_0000;
  }

  /** "1" and sixteen "0": the size 2^64 is taken for the last chunk. */
  lemma {:induction false} HugeSizeEndsBody(s: seq<byte>, limit: nat)
    requires limit >= 19
    ensures AllHex(OneAndNoughts(16)) && HexNumber(OneAndNoughts(16)) == TWO_64
    ensures Decode(OneAndNoughts(16) + CRLF + s, 0, limit) == Some(Decoded([], s))
  {
    hide SizeLine, Hex, HexNumber, Power16, AllHex;
    Powers();
    HexPower(16);
    HexWrites(TWO_64);
    SizeLineReadsBack(TWO_64, s, limit);
  }

  lemma {:induction false} HexZero()
    ensures Hex(0) == [48]
  {
  }

  /** Taking k bytes out of the current chunk leaves the rest of the body pending. */
  lemma {:induction false} TakeInChunk(s: seq<byte>, n: nat, k: nat, limit: nat)
    requires 0 < n && k <= n && Decode(s, n, limit).Some?
    ensures var d := Decode(s, n, limit).value;
            && |s| >= n + 2 && |d.body| >= n && s[..k] == d.body[..k]
            && (k < n ==> Decode(s[k..], n - k, limit) == Some(Decoded(d.body[k..], d.after)))
            && (k == n ==> s[k..][..2] == CRLF && Decode(s[k..][2..], 0, limit) == Some(Decoded(d.body[k..], d.after)))
  {
    hide SizeLine;
    var d := Decode(s, n, limit).value;
    var t := s[k..];
    assert s[..n] == d.body[..n];
    assert t[n - k..n - k + 2] == s[n..n + 2] && t[n - k + 2..] == s[n + 2..];
    assert d.body[k..] == t[..n - k] + d.body[n..];
    assert d.body[n..] == Decode(s[n + 2..], 0, limit).value.body;
    if k == n { assert t[..2] == s[n..n + 2] && d.body[k..] == d.body[n..]; }
  }

  /** A stream decodes, or is cut short, or neither, however much of the current chunk was taken. */
  lemma {:induction false} SameEnding(s: seq<byte>, n: nat, k: nat, limit: nat)
    requires 0 < n && k <= n && k <= |s|
    ensures !(Decode(s, n, limit).Some? && CutShort(s, n, limit))
    ensures k < n ==>
              && (Decode(s[k..], n - k, limit).Some? <==> Decode(s, n, limit).Some?)
              && (CutShort(s[k..], n - k, limit) <==> CutShort(s, n, limit))
    ensures k == n ==>
              var t := s[k..];
              && (Decode(s, n, limit).Some? <==> CRLF <= t && Decode(t[2..], 0, limit).Some?)
              && (CutShort(s, n, limit) <==> t == [] || (CRLF <= t && CutShort(t[2..], 0, limit)))
    decreases |s|
  {
    hide SizeLine;
    var t := s[k..];
    if |s| >= n + 2 {
      assert t[n - k..n - k + 2] == s[n..n + 2] && t[n - k + 2..] == s[n + 2..];
      NotBoth(s[n + 2..], limit);
    }
    if k == n && |t| >= 2 { assert CRLF <= t <==> s[n..n + 2] == CRLF; }
  }

  lemma {:induction false} RunsDry(s: seq<byte>, n: nat, limit: nat)
    requires 0 < n && |s| <= n
    ensures CutShort(s, n, limit) && Decode(s, n, limit).None?
  {
  }

  lemma {:induction false} NotBoth(s: seq<byte>, limit: nat)
    ensures !(Decode(s, 0, limit).Some? && CutShort(s, 0, limit))
    decreases |s|
  {
    hide SizeLine;
    var head := SizeLine(s, limit);
    if head.Some? && head.value.0 > 0 { SameEnding(head.value.1, head.value.0, 0, limit); }
  }

  // ------------------------------------------------------------------------------- the reader

  /** The code standing for io.EOF among the errors a connection can end with. */
  const EOF_CODE: nat := 0

  datatype Fault = EOF | Wire(e: BufReader.Error) | LineTooLong | UnexpectedEOF | BadLength | Malformed | TrailerFields

  /** An error of the connection as the chunkedReader keeps it: io.EOF is io.EOF, whoever said it. */
  function Kept(e: BufReader.Error): Fault { if e == Source(EOF_CODE) then EOF else Wire(e) }

  /** An error where more bytes were due. */
  function Early(e: BufReader.Error): Fault { if e == Source(EOF_CODE) then UnexpectedEOF else Wire(e) }

  /** chunkedReader on top of a buffered reader. */
  class ChunkedReader {
    const r: Reader
    var n: nat
    var err: Option<Fault>

    constructor (r: Reader)
      ensures this.r == r && n == 0 && err.None?
    {
      this.r := r;
      n, err := 0, None;
    }

    /** What the rest of the stream decodes to, from the reader's present position. */
    ghost function Pending(): Option<Decoded>
      requires r.Valid()
      reads this, r, r.src, r.buf
    {
      Decode(r.Rest(), n, r.buf.Length)
    }

    ghost function Left(): seq<byte>
      requires r.Valid()
      reads this, r, r.src, r.buf
    {
      Salvaged(r.Rest(), n, r.buf.Length)
    }

    ghost predicate Cut()
      requires r.Valid()
      reads this, r, r.src, r.buf
    {
      CutShort(r.Rest(), n, r.buf.Length) && r.src.fin == Source(EOF_CODE)
    }

    /** What is wrong with a size line: it does not end within the buffer, or before the connection does,
        it has 4096 bytes or more, or it is no number. */
    ghost function SizeFault(): Fault
      requires r.Valid()
      reads this, r, r.src, r.buf
    {
      var s := r.Rest();
      if Find(s, LF) >= Min(|s|, r.buf.Length) then
        if r.err.None? && |s| >= r.buf.Length then LineTooLong else Early(r.src.fin)
      else if |Until(s, LF)| >= 4096 then LineTooLong
      else BadLength
    }

    /** readLine and parseHexUint; the end of the body is the size 0. */
    method BeginChunk()
      requires r.Valid() && n == 0 && err.None?
      modifies this, r, r.src, r.buf
      ensures r.Valid()
      ensures var head := SizeLine(old(r.Rest()), r.buf.Length);
              if head.None? then err.Some? && err != Some(EOF) && err == Some(old(SizeFault()))
              else r.Rest() == head.value.1 && n == head.value.0 && err == if n == 0 then Some(EOF) else None
    {
      hide Find, Until, Trim, ParseHex;
      ghost var s := r.Rest();
      UntilEnds(s, LF);
      var line, e := r.ReadSlice(LF);
      if e.Some? {
        err := Some(if e == Some(BufferFull) then LineTooLong else Early(e.value));
        return;
      }
      assert s[..|line|] == line && s[|line|..] == r.Rest();
      if |line| >= MAX_LINE {
        err := Some(LineTooLong);
        return;
      }
      var size := ParseHexUint(Trim(line));
      if size.None? {
        err := Some(BadLength);
        return;
      }
      n := size.value;
      if n == 0 {
        err := Some(EOF);
      }
    }

    /** io.ReadFull for the two bytes after a chunk. */
    method EndChunk()
      requires r.Valid() && n == 0 && err.None?
      modifies this`err, r, r.src, r.buf
      ensures r.Valid()
      ensures var s := old(r.Rest());
              if CRLF <= s then err.None? && r.Rest() == s[2..]
              else
                && err == Some(if s == [] then Kept(r.src.fin) else if |s| == 1 then Early(r.src.fin) else Malformed)
                && (err == Some(EOF) <==> s == [] && r.src.fin == Source(EOF_CODE))
                && (s == [] ==> r.Rest() == [])
    {
      ghost var s := r.Rest();
      var c0, e := r.ReadByte();
      if e.Some? {
        err := Some(Kept(e.value));
        return;
      }
      var c1;
      c1, e := r.ReadByte();
      if e.Some? {
        err := Some(Early(e.value));
        return;
      }
      assert s == [c0, c1] + r.Rest();
      assert s[..2] == [c0, c1] && s[2..] == r.Rest();
      assert CRLF <= s <==> [c0, c1] == CRLF;
      if c0 != CR || c1 != LF {
        err := Some(Malformed);
      }
    }

    /** Read delivers the next bytes of the body. On a decodable stream it never fails before the
        end: every call takes a prefix off the pending body, and EOF comes when the body is
        finished, with the stream standing right behind the last chunk. Otherwise EOF comes exactly
        when the connection ended within a chunk, and then nothing is left to read. */
    method Read(p: array<byte>) returns (k: nat, e: Option<Fault>)
      requires r.Valid() && p.Length > 0 && p != r.buf
      modifies this, r, r.src, r.buf, p
      ensures r.Valid() && k <= p.Length && e == err
      ensures e.None? ==>
                |r.Rest()| < old(|r.Rest()|) || (|r.Rest()| == old(|r.Rest()|) && r.Measure() < old(r.Measure()))
      ensures old(err).Some? ==> k == 0 && err == old(err)
      ensures old(err).None? ==> p[..k] + (if e.None? then Left() else []) == old(Left())
      ensures old(err).None? && old(Pending()).Some? ==>
                var d := old(Pending()).value;
                if d.body == [] then k == 0 && e == Some(EOF) && r.Rest() == d.after
                else e.None? && p[..k] <= d.body && Pending() == Some(Decoded(d.body[k..], d.after))
      ensures old(err).None? && e.None? ==> (Cut() <==> old(Cut())) && (Pending().Some? <==> old(Pending()).Some?)
      ensures old(err).None? && e.Some? ==> (e == Some(EOF) <==> old(Pending()).Some? || old(Cut()))
      ensures old(err).None? && e == Some(EOF) && old(Pending()).None? ==> r.Rest() == []
    {
      hide SizeLine;
      assert p[..0] == [];
      if err.Some? {
        return 0, err;
      }
      if n == 0 {
        BeginChunk();
        if err.Some? {
          return 0, err;
        }
      }
      k := ReadInChunk(p);
      return k, err;
    }

    /** The part of Read inside a chunk. */
    method ReadInChunk(p: array<byte>) returns (k: nat)
      requires r.Valid() && p.Length > 0 && p != r.buf && n > 0 && err.None?
      modifies this, r, r.src, r.buf, p
      ensures r.Valid() && k <= p.Length
      ensures err.None? ==>
                |r.Rest()| < old(|r.Rest()|) || (|r.Rest()| == old(|r.Rest()|) && r.Measure() < old(r.Measure()))
      ensures p[..k] + (if err.None? then Left() else []) == old(Left())
      ensures old(Pending()).Some? ==>
                var d := old(Pending()).value;
                && err.None? && p[..k] <= d.body && Pending() == Some(Decoded(d.body[k..], d.after))
      ensures err.None? ==> (Cut() <==> old(Cut())) && (Pending().Some? <==> old(Pending()).Some?)
      ensures err.Some? ==> old(Pending()).None? && (err == Some(EOF) <==> old(Cut()))
      ensures err.Some? && old(Cut()) ==> r.Rest() == []
    {
      hide Decode, CutShort, Salvaged;
      ghost var s := r.Rest();
      var b := new byte[Min(p.Length, n)];
      var e;
      k, e := r.Read(b);
      CopyOut(b, p, k);
      assert s[..k] == b[..k] && s[k..] == r.Rest();
      if Decode(s, n, r.buf.Length).Some? { TakeInChunk(s, n, k, r.buf.Length); }
      SameEnding(s, n, k, r.buf.Length);
      SalvagedStep(s, n, k, r.buf.Length);
      n := n - k;
      if e.Some? {
        RunsDry(s, old(n), r.buf.Length);
        err := Some(Kept(e.value));
      } else if n == 0 {
        EndChunk();
      }
    }

    /** Reading to the end with a buffer of any size m recovers the whole body; EOF means that, or that
        the connection ended within a chunk. On any input the data before the first fault is delivered,
        and no more. */
    method ReadAll(m: nat) returns (body: seq<byte>, e: Fault)
      requires r.Valid() && m > 0 && err.None?
      modifies this, r, r.src, r.buf
      ensures r.Valid()
      ensures old(Pending()).Some? ==>
                body == old(Pending()).value.body && e == EOF && r.Rest() == old(Pending()).value.after
      ensures e == EOF <==> old(Pending()).Some? || old(Cut())
      ensures body == old(Left())
    {
      hide Decode, Salvaged;
      body := [];
      var p := new byte[m](_ => 0);
      ghost var was := Pending();
      while true
        invariant r.Valid() && err.None? && fresh(p) && p != r.buf && p.Length == m
        invariant (Cut() <==> old(Cut())) && (Pending().Some? <==> was.Some?)
        invariant body + Left() == old(Left())
        invariant was.Some? ==>
          && Pending().Some? && body + Pending().value.body == was.value.body
          && Pending().value.after == was.value.after
        decreases |r.Rest()|, r.Measure()
      {
        ghost var d := Pending();
        var k, f := Read(p);
        if d.Some? { Carry(body, d.value.body, p[..k]); }
        Rejoin(body, p[..k], if f.None? then Left() else []);
        body := body + p[..k];
        if f.Some? {
          assert p[..0] == [];
          return body, f.value;
        }
      }
    }
  }

  lemma {:induction false} Carry(a: seq<byte>, b: seq<byte>, c: seq<byte>)
    requires c <= b
    ensures a + c + b[|c|..] == a + b && (c == [] ==> a + c == a)
  {
  }

  /** b is a slice of p in the source. */
  method CopyOut(b: array<byte>, p: array<byte>, k: nat)
    requires k <= b.Length <= p.Length && b != p
    modifies p
    ensures p[..k] == b[..k]
  {
    forall i | 0 <= i < k {
      p[i] := b[i];
    }
  }

  // ------------------------------------------------------------------------------- the writer

  /** chunkedWriter on top of a buffered writer. */
  class ChunkedWriter {
    const wire: BufWriter.Writer

    constructor (wire: BufWriter.Writer)
      ensures this.wire == wire
    {
      this.wire := wire;
    }

    /** Write adds one chunk, or nothing at all for an empty write; after an error at most a prefix
        of the chunk has been added. */
    method Write(data: seq<byte>) returns (n: nat, e: Option<BufWriter.Error>)
      requires wire.Valid()
      modifies wire, wire.wr, wire.buf
      ensures wire.Valid() && n <= |data|
      ensures e.None? ==> n == |data| && wire.accepted == old(wire.accepted) + ChunkOf(data)
      ensures e.Some? ==> old(wire.accepted) <= wire.accepted <= old(wire.accepted) + ChunkOf(data)
      ensures old(wire.Healthy()) ==> wire.Healthy() && e.None?
    {
      hide Hex;
      if |data| == 0 {
        return 0, None;
      }
      ghost var a := wire.accepted;
      var size := Hex(|data|) + CRLF;
      assert a + ChunkOf(data) == a + size + data + CRLF;
      var k;
      k, e := wire.Write(size);
      if e.Some? {
        assert size[..k] <= size;
        return 0, e;
      }
      assert size[..k] == size;
      n, e := wire.Write(data);
      if e.Some? {
        return n, e;
      }
      assert data[..n] == data;
      k, e := wire.WriteString(CRLF);
      if e.None? { assert CRLF[..k] == CRLF; }
    }

    /** Close adds the last chunk. */
    method Close() returns (e: Option<BufWriter.Error>)
      requires wire.Valid()
      modifies wire, wire.wr, wire.buf
      ensures wire.Valid() && (e.None? ==> wire.accepted == old(wire.accepted) + LAST_CHUNK)
      ensures old(wire.Healthy()) ==> wire.Healthy() && e.None?
    {
      var k;
      k, e := wire.WriteString(LAST_CHUNK);
      if e.None? { assert LAST_CHUNK[..k] == LAST_CHUNK; }
    }
  }
}
