/** Which byte strings a receiver takes for a chunked body, without reference to the code that reads
    them: the grammar of section 4.1 of RFC 7230 as bfe_http/chunked.go has it. */
module ChunkGrammar {
  import opened Basics
  import opened BufReader
  import opened Chunked

  // ---------------------------------------------------------------------------------- size lines

  /** The value of an ASCII hex digit in either case. */
  predicate IsHexDigit(b: byte, d: nat) {
    (b == 48 + d && d <= 9) || (b == 87 + d && 10 <= d <= 15) || (b == 55 + d && 10 <= d <= 15)
  }

  lemma {:induction false} HexValueIff(b: byte, d: nat)
    ensures HexValue(b) == Some(d) <==> IsHexDigit(b, d)
  {
  }

  /** Blank, tab, LF or CR. */
  predicate IsBlank(b: byte) { b in {32, 9, 10, 13} }

  /** ds are the values of the digits. */
  predicate AreDigits(digits: seq<byte>, ds: seq<nat>) {
    |ds| == |digits| && forall i :: 0 <= i < |ds| ==> IsHexDigit(digits[i], ds[i])
  }

  /** Each digit with its power of sixteen. */
  function Weighted(ds: seq<nat>): nat { if ds == [] then 0 else ds[0] * Power16(|ds| - 1) + Weighted(ds[1..]) }

  lemma {:induction false} WeightedLast(ds: seq<nat>, d: nat)
    ensures Weighted(ds + [d]) == Weighted(ds) * 16 + d
  {
    if ds == [] {
      assert [d][1..] == [];
    } else {
      var t := ds[1..];
      assert (ds + [d])[1..] == t + [d];
      WeightedLast(t, d);
      assert ds[0] * Power16(|ds|) == ds[0] * Power16(|ds| - 1) * 16;
    }
  }

  lemma {:induction false} DigitsNumber(digits: seq<byte>, ds: seq<nat>)
    requires AreDigits(digits, ds)
    ensures AllHex(digits) && HexNumber(digits) == Weighted(ds)
  {
    forall i | 0 <= i < |digits|
      ensures HexValue(digits[i]).Some?
    {
      HexValueIff(digits[i], ds[i]);
    }
    if digits != [] {
      var n := |digits| - 1;
      DigitsNumber(digits[..n], ds[..n]);
      HexValueIff(digits[n], ds[n]);
      assert ds == ds[..n] + [ds[n]];
      WeightedLast(ds[..n], ds[n]);
    }
  }

  lemma {:induction false} DigitsOf(digits: seq<byte>) returns (ds: seq<nat>)
    requires AllHex(digits)
    ensures AreDigits(digits, ds)
  {
    ds := [];
    if digits != [] {
      var n := |digits| - 1;
      ds := DigitsOf(digits[..n]);
      var d := HexValue(digits[n]).value;
      HexValueIff(digits[n], d);
      ds := ds + [d];
    }
  }

  /** A size line: any number of hex digits, even none, then blanks of which the last is the only LF; short
      enough for the reader. It announces the number modulo 2^64. */
  ghost predicate Announces(line: seq<byte>, n: nat, limit: nat) {
    && line != [] && line[|line| - 1] == 10 && 10 !in line[..|line| - 1]
    && |line| <= limit && |line| < 4096
    && exists digits, ds ::
         && digits <= line && (forall i :: |digits| <= i < |line| ==> IsBlank(line[i]))
         && AreDigits(digits, ds) && n == Weighted(ds) % 0x1_0000_0000_0000_0000
  }

  lemma {:induction false} TrimIs(line: seq<byte>, k: nat)
    requires k <= |line| && (forall i :: k <= i < |line| ==> IsBlank(line[i])) && (k > 0 ==> !IsBlank(line[k - 1]))
    ensures Trim(line) == line[..k]
    decreases |line|
  {
    if k < |line| {
      var t := line[..|line| - 1];
      TrimIs(t, k);
      assert t[..k] == line[..k];
    } else {
      assert line[..k] == line;
    }
  }

  lemma {:induction false} TrimBlanks(line: seq<byte>)
    ensures forall i :: |Trim(line)| <= i < |line| ==> IsBlank(line[i])
    ensures Trim(line) != [] ==> !IsBlank(Trim(line)[|Trim(line)| - 1])
  {
    if line != [] && IsSpace(line[|line| - 1]) { TrimBlanks(line[..|line| - 1]); }
  }

  lemma {:induction false} DigitNotBlank(b: byte, d: nat)
    requires IsHexDigit(b, d)
    ensures !IsBlank(b)
  {
  }

  lemma {:induction false} UntilIs(line: seq<byte>, rest: seq<byte>)
    requires line != [] && line[|line| - 1] == 10 && 10 !in line[..|line| - 1]
    ensures Find(line + rest, LF) == |line| - 1 && Until(line + rest, LF) == line && (line + rest)[|line|..] == rest
  {
    var s := line + rest;
    forall k | 0 <= k < |line| - 1
      ensures s[k] != LF
    {
      assert s[k] == line[..|line| - 1][k];
    }
    FindIn(s, LF, |line| - 1);
    UntilAt(s, |line| - 1);
    assert s[..|line|] == line;
  }

  /** The reader takes a line for a size exactly when it announces it. */
  lemma {:induction false} SizeLineRead(line: seq<byte>, rest: seq<byte>, n: nat, limit: nat)
    requires Announces(line, n, limit)
    ensures SizeLine(line + rest, limit) == Some((n, rest))
  {
    hide Find, Until, Trim, ParseHex;
    UntilIs(line, rest);
    var digits, ds :| digits <= line && (forall i :: |digits| <= i < |line| ==> IsBlank(line[i]))
                      && AreDigits(digits, ds) && n == Weighted(ds) % 0x1_0000_0000_0000_0000;
    DigitsNumber(digits, ds);
    ParseHexMeans(digits);
    if digits != [] { DigitNotBlank(digits[|digits| - 1], ds[|ds| - 1]); }
    TrimIs(line, |digits|);
    assert line[..|digits|] == digits;
  }

  lemma {:induction false} SizeLineGives(s: seq<byte>, limit: nat) returns (line: seq<byte>)
    requires SizeLine(s, limit).Some?
    ensures var (n, rest) := SizeLine(s, limit).value; Announces(line, n, limit) && s == line + rest
  {
    hide Find, ParseHex, Trim;
    line := Until(s, LF);
    var digits := Trim(line);
    TrimBlanks(line);
    ParseHexMeans(digits);
    var ds := DigitsOf(digits);
    DigitsNumber(digits, ds);
    assert LF in s by { UntilHas(s, LF); }
    LineLength(s);
  }

  lemma {:induction false} LineLength(s: seq<byte>)
    requires Find(s, LF) < |s|
    ensures |Until(s, LF)| == Find(s, LF) + 1
  {
  }

  // -------------------------------------------------------------------------------- whole bodies

  datatype Chunk = Chunk(line: seq<byte>, data: seq<byte>)

  /** A chunk carries as many bytes as its size line announces, at least one. */
  ghost predicate IsChunk(c: Chunk, limit: nat) { c.data != [] && Announces(c.line, |c.data|, limit) }

  function Wire(cs: seq<Chunk>): seq<byte> {
    if cs == [] then [] else cs[0].line + cs[0].data + [13, 10] + Wire(cs[1..])
  }

  function Payload(cs: seq<Chunk>): seq<byte> { if cs == [] then [] else cs[0].data + Payload(cs[1..]) }

  /** Every string of chunks, closed by a line that announces 0, decodes to what the chunks carry. */
  lemma {:induction false} GrammarDecodes(cs: seq<Chunk>, last: seq<byte>, after: seq<byte>, limit: nat)
    requires (forall i :: 0 <= i < |cs| ==> IsChunk(cs[i], limit)) && Announces(last, 0, limit)
    ensures Decode(Wire(cs) + last + after, 0, limit) == Some(Decoded(Payload(cs), after))
    decreases |cs|
  {
    hide Announces, SizeLine;
    var s := Wire(cs) + last + after;
    if cs == [] {
      assert s == last + after;
      SizeLineRead(last, after, 0, limit);
    } else {
      var (c, rest) := (cs[0], Wire(cs[1..]) + last + after);
      GrammarDecodes(cs[1..], last, after, limit);
      var t := c.data + CRLF + rest;
      assert s == c.line + t;
      SizeLineRead(c.line, t, |c.data|, limit);
      InsideChunk(c.data, rest, limit);
    }
  }

  /** And nothing else decodes. */
  lemma {:induction false} DecodesByGrammar(s: seq<byte>, limit: nat) returns (cs: seq<Chunk>, last: seq<byte>)
    requires Decode(s, 0, limit).Some?
    ensures (forall i :: 0 <= i < |cs| ==> IsChunk(cs[i], limit)) && Announces(last, 0, limit)
    ensures var d := Decode(s, 0, limit).value; s == Wire(cs) + last + d.after && d.body == Payload(cs)
    decreases |s|
  {
    hide Announces, SizeLine;
    var line := SizeLineGives(s, limit);
    var (n, rest) := SizeLine(s, limit).value;
    if n == 0 {
      cs, last := [], line;
      assert s == [] + last + rest;
    } else {
      var more;
      more, last := DecodesByGrammar(rest[n + 2..], limit);
      var c := Chunk(line, rest[..n]);
      cs := [c] + more;
      assert cs[1..] == more;
      var d := Decode(s, 0, limit).value;
      assert rest == c.data + [13, 10] + rest[n + 2..];
      assert s == c.line + c.data + [13, 10] + (Wire(more) + last + d.after);
    }
  }
}
