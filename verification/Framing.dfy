/** Which framing a request gets and which framings a receiver accepts, for every request and every
    combination of header fields (bfe_http/transfer.go, section 3.3 of RFC 7230). */
module Framing {
  import opened Basics
  import opened Transfer

  // ------------------------------------------------------------------------------ declared lengths

  function Pow10(n: nat): nat { if n == 0 then 1 else 10 * Pow10(n - 1) }

  predicate AllDigits(s: string) { forall i :: 0 <= i < |s| ==> '0' <= s[i] <= '9' }

  /** The number a string of digits stands for: each digit with its power of ten. */
  function Positional(s: string): nat
    requires AllDigits(s)
  {
    if s == "" then 0 else (s[0] - '0') as nat * Pow10(|s| - 1) + Positional(s[1..])
  }

  lemma {:induction false} PositionalLast(s: string)
    requires s != "" && AllDigits(s)
    ensures Positional(s) == Positional(s[..|s| - 1]) * 10 + (s[|s| - 1] - '0') as nat
    decreases |s|
  {
    if |s| > 1 {
      var (t, n) := (s[1..], |s| - 1);
      PositionalLast(t);
      assert t[..|t| - 1] == s[..n][1..];
      var d := (s[0] - '0') as nat;
      assert d * Pow10(n) == d * Pow10(n - 1) * 10;
    } else {
      assert s[1..] == "" && s[..0] == "";
    }
  }

  lemma {:induction false} DigitsMeans(s: string)
    ensures Digits(s).Some? <==> AllDigits(s)
    ensures AllDigits(s) ==> Digits(s) == Some(Positional(s))
  {
    if s != "" {
      DigitsMeans(s[..|s| - 1]);
      if AllDigits(s) {
        PositionalLast(s);
      } else if AllDigits(s[..|s| - 1]) {
        assert !('0' <= s[|s| - 1] <= '9');
      }
    }
  }

  /** A legal value: digits, with or without a plus sign, that stand for n below 2^63; or minus zero. */
  ghost predicate Declares(s: string, n: nat) {
    && s != ""
    && var d := if s[0] == '+' || s[0] == '-' then s[1..] else s;
       d != "" && AllDigits(d) && Positional(d) == n && n < 0x8000_0000_0000_0000 && (s[0] == '-' ==> n == 0)
  }

  lemma {:induction false} ContentLengthMeans(s: string, n: nat)
    requires s != ""
    ensures ParseContentLength(s) == Some(n) <==> Declares(s, n)
    ensures ParseContentLength(s).Some? ==> ParseContentLength(s).value >= 0
  {
    DigitsMeans(if s[0] == '+' || s[0] == '-' then s[1..] else s);
  }

  // ---------------------------------------------------------------------------------- receiving

  /** No coding is in effect: none was sent, or identity comes first. */
  predicate Plain(h: Fields) { h.codings.None? || h.codings.value == [] || h.codings.value[0] == "identity" }

  /** The body is chunked once; what follows identity does not count. */
  predicate ChunkedOnce(h: Fields) {
    && h.codings.Some? && h.codings.value != [] && h.codings.value[0] == "chunked"
    && (|h.codings.value| == 1 || h.codings.value[1] == "identity")
  }

  predicate Agree(lengths: seq<string>) { forall i :: 0 <= i < |lengths| ==> lengths[i] == lengths[0] }

  /** The lengths cannot be used: they differ, HEAD has one other than 0, or it is no legal number. */
  ghost predicate BadLength(method_: string, lengths: seq<string>) {
    || !Agree(lengths)
    || (method_ == "HEAD" && lengths != [] && lengths[0] != "0")
    || (method_ != "HEAD" && lengths != [] && lengths[0] != "" && forall n: nat :: !Declares(lengths[0], n))
  }

  /** The codings in effect: those before identity, and they must all be chunked. */
  lemma {:induction false} CodingsIff(codings: seq<string>, te: seq<string>)
    ensures FixTransferEncoding(codings) == Some(te) <==>
              && |te| <= |codings| && (forall i :: 0 <= i < |te| ==> te[i] == codings[i] == "chunked")
              && (|te| == |codings| || codings[|te|] == "identity")
    decreases |codings|
  {
    if codings != [] && codings[0] == "chunked" && te != [] {
      var (cs, t) := (codings[1..], te[1..]);
      CodingsIff(cs, t);
      if FixTransferEncoding(codings) == Some(te) {
        assert t == FixTransferEncoding(cs).value;
      }
      if te[0] == "chunked" {
        assert te == ["chunked"] + t;
        assert forall i :: 0 < i < |te| ==> te[i] == t[i - 1] && (i < |codings| ==> codings[i] == cs[i - 1]);
        assert forall i :: 0 <= i < |t| ==> t[i] == te[i + 1] && (i < |cs| ==> cs[i] == codings[i + 1]);
      }
    }
  }

  lemma {:induction false} CodingsRead(codings: seq<string>)
    ensures var te := FixTransferEncoding(codings);
            && (te == Some([]) <==> codings == [] || codings[0] == "identity")
            && (te == Some(["chunked"]) <==>
                  codings != [] && codings[0] == "chunked" && (|codings| == 1 || codings[1] == "identity"))
            && (te.Some? && te.value != [] ==> te.value[0] == "chunked")
  {
    hide FixTransferEncoding;
    CodingsIff(codings, []);
    CodingsIff(codings, ["chunked"]);
    var te := FixTransferEncoding(codings);
    if te.Some? { CodingsIff(codings, te.value); }
  }

  /** What a receiver makes of the fields of a request. A single chunked coding overrides any length; any
      other coding is an error; without a coding the length, if any, must be one legal number, and HEAD
      has no body at all. */
  lemma {:induction false} RequestFramingIff(method_: string, h: Fields, n: nat)
    ensures var src := ReadTransfer(method_, h);
            && (src.None? <==> if Plain(h) then BadLength(method_, h.lengths) else !ChunkedOnce(h))
            && (src == Some(ChunkedBody) <==> ChunkedOnce(h) && method_ != "HEAD")
            && (src == Some(Limited(n)) <==>
                  && Plain(h) && method_ != "HEAD" && Agree(h.lengths) && h.lengths != []
                  && Declares(h.lengths[0], n) && n > 0)
  {
    hide FixTransferEncoding, ParseContentLength, Declares;
    if h.codings.Some? {
      CodingsRead(h.codings.value);
      var te := FixTransferEncoding(h.codings.value);
      if te.Some? && |te.value| == 1 { assert te.value == ["chunked"]; }
    }
    if Plain(h) { LengthsRead(method_, h.lengths, n); }
    assert FixLength(method_, [], ["chunked"]).Some?;
  }

  lemma {:induction false} LengthsRead(method_: string, lengths: seq<string>, n: nat)
    ensures var r := FixLength(method_, lengths, []);
            && (r.None? <==> BadLength(method_, lengths))
            && (r == Some(n) && n > 0 <==>
                  method_ != "HEAD" && Agree(lengths) && lengths != [] && Declares(lengths[0], n) && n > 0)
            && (r.Some? ==> r.value >= 0)
  {
    hide ParseContentLength;
    if lengths != [] && lengths[0] != "" {
      ContentLengthMeans(lengths[0], n);
      var v := ParseContentLength(lengths[0]);
      if v.Some? {
        ContentLengthMeans(lengths[0], 0);
        ContentLengthMeans(lengths[0], v.value);
      } else {
        forall k: nat
          ensures !Declares(lengths[0], k)
        {
          ContentLengthMeans(lengths[0], k);
        }
      }
    }
  }

  // ------------------------------------------------------------------------------------ sending

  /** The request goes out chunked: it asks for it, or it has no transfer coding and a body whose length
      is unknown or was left at zero although there is something in it. HTTP/1.0 is never chunked. */
  predicate GoesChunked(q: Request) {
    && q.http11 && q.body.Some?
    && ((q.te != [] && q.te[0] == "chunked")
        || (q.te == [] && (q.contentLength < 0 || (q.contentLength == 0 && q.body.value != []))))
  }

  /** Only a length without a body is refused; a request is sent chunked exactly in the cases above, with
      a length exactly if it is not chunked and has one, where zero counts only if the request came
      with the field and its method usually has a body; never both. */
  lemma {:induction false} FramingChosen(q: Request)
    ensures NewTransferWriter(q).None? <==> q.contentLength != 0 && q.body.None?
    ensures NewTransferWriter(q).Some? ==>
              var h := FieldsOf(NewTransferWriter(q).value);
              if GoesChunked(q) then h == Fields([], Some(["chunked"]))
              else if q.contentLength > 0 then h == Fields([Decimal(q.contentLength)], None)
              else if q.contentLength == 0 && q.hasLengthHeader && q.method_ != "GET" && q.method_ != "HEAD" then
                h == Fields([Decimal(0)], None)
              else h == Fields([], None)
  {
    hide Decimal;
  }
}
