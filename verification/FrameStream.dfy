/** Sequences of HTTP/2 frames: the order ReadFrame enforces, header blocks cut into HEADERS and
    CONTINUATION frames, and their reassembly (bfe_http2/frame.go, bfe_http2/write.go; sections 4.3
    and 6.10 of RFC 7540). */
module FrameStream {
  import opened Basics
  import opened FrameCodec
  import BufWriter

  /** checkFrameOrder: the new lastHeaderStream, or None for a connection error. */
  function Order(last: uint32, h: Header): Option<uint32> {
    if last != 0 && (h.ftype != 9 || h.stream != last) then None
    else if last == 0 && h.ftype == 9 then None
    else if h.ftype == 1 || h.ftype == 9 then Some(if Has(h.flags, 4) then 0 else h.stream)
    else Some(last)
  }

  /** ReadFrame, without merging header blocks, under the limit set with SetMaxReadFrameSize. */
  function ReadFrame(input: seq<byte>, last: uint32, max: nat): (r: Result<(Got, seq<byte>, uint32)>)
    ensures r.Ok? ==> |r.value.1| < |input|
  {
    match ReadOne(input, max)
    case Err(e) => Err(e)
    case Ok((g, rest)) =>
      match Order(last, g.header)
      case None => Err(ConnError(1))
      case Some(last') => Ok((g, rest, last'))
  }

  function ReadAll(input: seq<byte>, last: uint32, max: nat): Result<seq<Got>>
    decreases |input|
  {
    if input == [] then Ok([]) else
      match ReadFrame(input, last, max)
      case Err(e) => Err(e)
      case Ok((g, rest, last')) =>
        match ReadAll(rest, last', max)
        case Err(e) => Err(e)
        case Ok(gs) => Ok([g] + gs)
  }

  function EncodeAll(fs: seq<Frame>): seq<byte>
    requires forall i :: 0 <= i < |fs| ==> Writable(fs[i])
  {
    if fs == [] then [] else Encode(fs[0]) + EncodeAll(fs[1..])
  }

  function ExpectedAll(fs: seq<Frame>): seq<Got> {
    if fs == [] then [] else [Expected(fs[0])] + ExpectedAll(fs[1..])
  }

  /** The stream whose header block a frame leaves unfinished, or 0. */
  function Unfinished(f: Frame): uint32 {
    if (f.Headers? || f.Continuation?) && !f.endHeaders then f.stream else 0
  }

  /** Section 6.10: CONTINUATION appears exactly where the frame before it left a header block of
      the same stream unfinished. */
  ghost predicate Contiguous(fs: seq<Frame>, open: uint32) {
    forall i :: 0 <= i < |fs| ==> Follows(Before(fs, open, i), fs[i])
  }

  function Before(fs: seq<Frame>, open: uint32, i: nat): uint32
    requires i <= |fs|
  {
    if i == 0 then open else Unfinished(fs[i - 1])
  }

  predicate Follows(open: uint32, f: Frame) {
    if open == 0 then !f.Continuation? else f.Continuation? && f.stream == open
  }

  ghost predicate AllReadable(fs: seq<Frame>) {
    forall i :: 0 <= i < |fs| ==> Writable(fs[i]) && Readable(fs[i])
  }

  lemma {:induction false} OrderIffContiguous(f: Frame, open: uint32)
    requires Writable(f) && Readable(f)
    ensures Order(open, Expected(f).header) ==
              if Follows(open, f) then Some(Unfinished(f)) else None
  {
  }

  /** Whatever is read: a frame is delivered if and only if it is in order, and otherwise it is a
      PROTOCOL_ERROR of the connection. Then the block that is open is that of the last HEADERS or
      CONTINUATION frame without END_HEADERS. */
  lemma {:induction false} ReadInOrderIff(input: seq<byte>, last: uint32, max: nat)
    requires ReadOne(input, max).Ok?
    ensures var (g, rest) := ReadOne(input, max).value;
            var h := g.header;
            var open: uint32 := if (h.ftype == 1 || h.ftype == 9) && h.flags / 4 % 2 == 0 then h.stream else 0;
            ReadFrame(input, last, max) ==
              if last == 0 && h.ftype == 9 then Err(ConnError(1))
              else if last != 0 && (h.ftype != 9 || h.stream != last) then Err(ConnError(1))
              else Ok((g, rest, open))
  {
    hide ReadOne;
  }

  lemma {:induction false} ContiguousStep(fs: seq<Frame>, open: uint32)
    requires fs != []
    ensures Contiguous(fs, open) <==> Follows(open, fs[0]) && Contiguous(fs[1..], Unfinished(fs[0]))
  {
    hide Follows;
    var tail := fs[1..];
    if Contiguous(fs, open) {
      forall i | 0 <= i < |tail|
        ensures Follows(Before(tail, Unfinished(fs[0]), i), tail[i])
      {
        assert Follows(Before(fs, open, i + 1), fs[i + 1]);
      }
      assert Follows(Before(fs, open, 0), fs[0]);
    }
    if Follows(open, fs[0]) && Contiguous(tail, Unfinished(fs[0])) {
      forall i | 0 <= i < |fs|
        ensures Follows(Before(fs, open, i), fs[i])
      {
        if i > 0 { assert Follows(Before(tail, Unfinished(fs[0]), i - 1), tail[i - 1]); }
      }
    }
  }

  ghost predicate AllWithin(fs: seq<Frame>, max: nat) {
    forall i :: 0 <= i < |fs| ==> |PayloadOf(fs[i])| <= max
  }

  /** Any sequence of readable frames is read back as the same sequence if and only if its header
      blocks are contiguous and every frame is within the reader's limit. */
  lemma {:induction false} SequenceRoundTripIff(fs: seq<Frame>, open: uint32, max: nat)
    requires AllReadable(fs)
    ensures ReadAll(EncodeAll(fs), open, max) == Ok(ExpectedAll(fs)) <==> Contiguous(fs, open) && AllWithin(fs, max)
    decreases |fs|
  {
    hide Encode, ReadOne, Writable, Readable, Expected, Order, Contiguous, PayloadOf;
    if fs == [] {
      EmptyContiguous(open);
    } else {
      var rest := EncodeAll(fs[1..]);
      FrameRoundTripIff(fs[0], rest, max);
      OrderIffContiguous(fs[0], open);
      ContiguousStep(fs, open);
      EncodeNonEmpty(fs[0]);
      SequenceRoundTripIff(fs[1..], Unfinished(fs[0]), max);
      assert AllWithin(fs, max) <==> |PayloadOf(fs[0])| <= max && AllWithin(fs[1..], max);
      var tail := ReadAll(rest, Unfinished(fs[0]), max);
      if tail.Ok? { assert ([Expected(fs[0])] + tail.value)[1..] == tail.value; }
      assert ExpectedAll(fs)[1..] == ExpectedAll(fs[1..]);
    }
  }

  lemma {:induction false} EmptyContiguous(open: uint32)
    ensures Contiguous([], open)
  {
  }

  lemma {:induction false} EncodeNonEmpty(f: Frame)
    requires Writable(f)
    ensures |Encode(f)| >= 9
  {
  }

  // --------------------------------------------------------------------------- header blocks

  const FRAGMENT: nat := 16384

  /** CONTINUATION frames for what is left of a header block. */
  function Continued(stream: uint32, block: seq<byte>): seq<Frame>
    decreases |block|
  {
    if block == [] then []
    else if |block| <= FRAGMENT then [Continuation(stream, true, block)]
    else [Continuation(stream, false, block[..FRAGMENT])] + Continued(stream, block[FRAGMENT..])
  }

  /** The frames of a header block: HEADERS, then CONTINUATION while anything is left. */
  function Fragments(stream: uint32, endStream: bool, block: seq<byte>): seq<Frame> {
    if block == [] then []
    else if |block| <= FRAGMENT then [Headers(stream, endStream, true, 0, NO_DEPENDENCY, block)]
    else [Headers(stream, endStream, false, 0, NO_DEPENDENCY, block[..FRAGMENT])] + Continued(stream, block[FRAGMENT..])
  }

  lemma {:induction false} ContinuedShape(stream: uint32, block: seq<byte>)
    requires ValidStreamID(stream)
    ensures var fs := Continued(stream, block);
            && AllReadable(fs)
            && (block != [] ==> fs != [] && Contiguous(fs, stream))
            && (forall i :: 0 <= i < |fs| ==> fs[i].Continuation? && fs[i].stream == stream)
            && (forall i :: 0 <= i < |fs| ==> (fs[i].endHeaders <==> i == |fs| - 1))
            && (forall i :: 0 <= i < |fs| ==> 0 < |fs[i].block| <= 16384 && (i < |fs| - 1 ==> |fs[i].block| == 16384))
    decreases |block|
  {
    if |block| > FRAGMENT {
      ContinuedShape(stream, block[FRAGMENT..]);
      var fs := Continued(stream, block);
      assert fs[1..] == Continued(stream, block[FRAGMENT..]);
      ContiguousStep(fs, stream);
    }
  }

  /** The fragments of any non-empty header block are legal frames in a legal order, all but the last of
      2^14 octets, with END_HEADERS on the last one only and END_STREAM, if at all, on the first. */
  lemma {:induction false} FragmentsShape(stream: uint32, endStream: bool, block: seq<byte>)
    requires ValidStreamID(stream) && block != []
    ensures var fs := Fragments(stream, endStream, block);
            && fs != [] && fs[0].Headers? && fs[0].stream == stream && fs[0].endStream == endStream
            && AllReadable(fs) && Contiguous(fs, 0)
            && (forall i :: 0 < i < |fs| ==> fs[i].Continuation? && fs[i].stream == stream)
            && (forall i :: 0 <= i < |fs| ==>
                  && (fs[i].Headers? || fs[i].Continuation?) && (fs[i].endHeaders <==> i == |fs| - 1)
                  && 0 < |fs[i].block| <= 16384 && (i < |fs| - 1 ==> |fs[i].block| == 16384))
  {
    if |block| > FRAGMENT {
      ContinuedShape(stream, block[FRAGMENT..]);
      var fs := Fragments(stream, endStream, block);
      assert fs[1..] == Continued(stream, block[FRAGMENT..]);
      ContiguousStep(fs, 0);
    }
  }

  /** How the decoder can fail on a fragment: on its coding, or because a limit on the header list or the
      URI is passed. */
  datatype Failure = Corrupt | OverLimit

  /** What readMetaFrame needs of the HPACK decoder, as functions of the block bytes written to it so far:
      how it takes them, whether a field was invalid, how much of the header list limit is left, and at
      the end whether the block is complete and its pseudo fields are in order. */
  datatype Decoder = Decoder(
    write: seq<byte> -> Option<Failure>, invalid: seq<byte> -> bool, room: seq<byte> -> uint32,
    complete: seq<byte> -> bool, pseudosOk: seq<byte> -> bool)

  /** The checks of readMetaFrame's loop on one more fragment; 2*room is a 32-bit product. */
  function Fault(d: Decoder, before: seq<byte>, frag: seq<byte>): Option<ReadError> {
    if |frag| > 2 * d.room(before) % 0x1_0000_0000 || d.invalid(before) then Some(ConnError(1))
    else
      match d.write(before + frag)
      case None => None
      case Some(Corrupt) => Some(ConnError(9))
      case Some(OverLimit) => Some(HeaderLimit)
  }

  /** The loop of readMetaFrame: hand fragment after fragment to the decoder until END_HEADERS. */
  function Gather(frag: seq<byte>, ended: bool, input: seq<byte>, last: uint32, before: seq<byte>, d: Decoder, max: nat)
    : (r: Result<(seq<byte>, seq<byte>)>)
    decreases |input|
  {
    match Fault(d, before, frag)
    case Some(e) => Err(e)
    case None =>
      if ended then Ok((before + frag, input)) else
        match ReadFrame(input, last, max)
        case Err(e) => Err(e)
        case Ok((g, rest, last')) =>
          if !g.body.GotContinuation? then Err(ConnError(1))
          else Gather(g.body.block, Has(g.header.flags, 4), rest, last', before + frag, d, max)
  }

  /** The checks after the loop. */
  function Conclude(stream: uint32, block: seq<byte>, d: Decoder): Result<seq<byte>> {
    if !d.complete(block) then Err(ConnError(9))
    else if d.invalid(block) || !d.pseudosOk(block) then Err(StreamError(stream, 1))
    else Ok(block)
  }

  /** ReadFrame with merged header blocks, where a HEADERS frame comes first: the block, and what follows
      it. */
  function ReadMeta(input: seq<byte>, d: Decoder, max: nat): Result<(seq<byte>, seq<byte>)> {
    match ReadFrame(input, 0, max)
    case Err(e) => Err(e)
    case Ok((g, rest, last)) =>
      if !g.body.GotHeaders? then Err(ConnError(1)) else
        match Gather(g.body.block, Has(g.header.flags, 4), rest, last, [], d, max)
        case Err(e) => Err(e)
        case Ok((block, after)) =>
          match Conclude(g.header.stream, block, d)
          case Err(e) => Err(e)
          case Ok(_) => Ok((block, after))
  }

  /** A fragment is refused for the room left or an earlier invalid field before the decoder sees it. */
  lemma {:induction false} FaultIff(d: Decoder, before: seq<byte>, frag: seq<byte>)
    ensures var refused := |frag| > 2 * d.room(before) % 0x1_0000_0000 || d.invalid(before);
            var r := d.write(before + frag);
            && (Fault(d, before, frag) == Some(ConnError(1)) <==> refused)
            && (Fault(d, before, frag) == Some(ConnError(9)) <==> !refused && r == Some(Corrupt))
            && (Fault(d, before, frag) == Some(HeaderLimit) <==> !refused && r == Some(OverLimit))
            && (Fault(d, before, frag) == None <==> !refused && r == None)
  {
  }

  /** The first fault among the fragments of the block. */
  function FaultOf(d: Decoder, before: seq<byte>, block: seq<byte>): Option<ReadError>
    decreases |block|
  {
    if |block| <= FRAGMENT then Fault(d, before, block)
    else
      var first := Fault(d, before, block[..FRAGMENT]);
      if first.Some? then first else FaultOf(d, before + block[..FRAGMENT], block[FRAGMENT..])
  }

  function Answer<T>(fault: Option<ReadError>, value: T): Result<T> {
    match fault
    case None => Ok(value)
    case Some(e) => Err(e)
  }

  lemma {:induction false} GatherContinued(stream: uint32, frag: seq<byte>, block: seq<byte>, rest: seq<byte>,
                                           before: seq<byte>, d: Decoder, max: nat)
    requires ValidStreamID(stream) && block != [] && max >= FRAGMENT
    requires AllReadable(Continued(stream, block))
    ensures Gather(frag, false, EncodeAll(Continued(stream, block)) + rest, stream, before, d, max)
         == Answer(if Fault(d, before, frag).Some? then Fault(d, before, frag) else FaultOf(d, before + frag, block),
                   (before + frag + block, rest))
    decreases |block|
  {
    hide Encode, ReadOne, Fault, Writable, Readable;
    var fs := Continued(stream, block);
    var cut := if |block| <= FRAGMENT then block else block[..FRAGMENT];
    var left := block[|cut|..];
    var f := Continuation(stream, left == [], cut);
    assert fs[0] == f && fs[1..] == Continued(stream, left);
    var input := EncodeAll(fs) + rest;
    var input' := EncodeAll(fs[1..]) + rest;
    assert input == Encode(f) + input';
    FrameRoundTripIff(f, input', max);
    OrderIffContiguous(f, stream);
    FlagSeen(f);
    if left == [] {
      assert input' == rest;
      assert before + frag + block == (before + frag) + cut;
    } else {
      GatherContinued(stream, cut, left, rest, before + frag, d, max);
      assert before + frag + cut + left == before + frag + block;
    }
  }

  /** Inside an unfinished header block ReadFrame delivers nothing but CONTINUATION frames of that
      stream, so the type assertion in the loop cannot fail. */
  lemma {:induction false} OnlyContinuation(input: seq<byte>, last: uint32, max: nat)
    requires last != 0
    ensures var r := ReadFrame(input, last, max);
            r.Ok? ==> r.value.0.body.GotContinuation? && r.value.0.header.stream == last
  {
    if |input| >= 9 {
      var h := ReadHeader(input[..9]);
      if |input| >= 9 + h.length && h.ftype == 9 {
        assert Parse(h, input[9..9 + h.length]).Ok? ==> Parse(h, input[9..9 + h.length]).value.GotContinuation?;
      }
    }
  }

  lemma {:induction false} FlagSeen(f: Frame)
    requires f.Continuation? || f.Headers?
    ensures Has(Expected(f).header.flags, 4) <==> f.endHeaders
    ensures f.Continuation? ==> Expected(f).body == GotContinuation(f.block)
  {
  }

  /** Header blocks round trip: the bytes written for a non-empty block, followed by anything, are
      read as one HEADERS frame and reassembled to exactly the block with the rest left unread, if
      and only if no fragment has a fault; otherwise the first fault is the answer. No reader's limit is
      below a fragment (section 6.5.2 of RFC 7540). */
  lemma {:induction false} HeaderBlockRoundTrip(stream: uint32, endStream: bool, block: seq<byte>, rest: seq<byte>,
                                                d: Decoder, max: nat)
    requires ValidStreamID(stream) && block != [] && max >= FRAGMENT
    ensures AllReadable(Fragments(stream, endStream, block))
    ensures var r := ReadFrame(EncodeAll(Fragments(stream, endStream, block)) + rest, 0, max);
            && r.Ok? && r.value.0.body.GotHeaders? && r.value.0.header.stream == stream
            && (Has(r.value.0.header.flags, 1) <==> endStream)
            && Gather(r.value.0.body.block, Has(r.value.0.header.flags, 4), r.value.1, r.value.2, [], d, max)
                 == Answer(FaultOf(d, [], block), (block, rest))
  {
    hide Encode, ReadOne, Fault, Writable, Readable, Fragments, FaultOf, Gather, Has, Contiguous, Order;
    FragmentsShape(stream, endStream, block);
    var fs := Fragments(stream, endStream, block);
    var cut := if |block| <= FRAGMENT then block else block[..FRAGMENT];
    var left := block[|cut|..];
    var f := Headers(stream, endStream, left == [], 0, NO_DEPENDENCY, cut);
    assert fs[0] == f && fs[1..] == Continued(stream, left) by { FirstFragment(stream, endStream, block); }
    var input' := EncodeAll(fs[1..]) + rest;
    assert EncodeAll(fs) + rest == Encode(f) + input';
    FrameRoundTripIff(f, input', max);
    OrderIffContiguous(f, 0);
    FlagSeen(f);
    EndStreamSeen(f);
    FirstGathered(stream, cut, left, rest, d, max);
    assert cut + left == block;
  }

  lemma {:induction false} FirstFragment(stream: uint32, endStream: bool, block: seq<byte>)
    requires block != []
    ensures var cut := if |block| <= FRAGMENT then block else block[..FRAGMENT];
            var (left, fs) := (block[|cut|..], Fragments(stream, endStream, block));
            && fs != [] && fs[0] == Headers(stream, endStream, left == [], 0, NO_DEPENDENCY, cut)
            && fs[1..] == Continued(stream, left)
  {
  }

  /** Gathering from the first fragment on. */
  lemma {:induction false} FirstGathered(stream: uint32, cut: seq<byte>, left: seq<byte>, rest: seq<byte>, d: Decoder,
                                         max: nat)
    requires ValidStreamID(stream) && max >= FRAGMENT && |cut| <= FRAGMENT && (left != [] ==> |cut| == FRAGMENT)
    requires AllReadable(Continued(stream, left))
    ensures Gather(cut, left == [], EncodeAll(Continued(stream, left)) + rest, if left == [] then 0 else stream, [], d,
                   max)
         == Answer(FaultOf(d, [], cut + left), (cut + left, rest))
  {
    hide Encode, ReadFrame, Fault, Writable, Readable;
    if left == [] {
      assert EncodeAll(Continued(stream, left)) + rest == rest;
      assert [] + cut == cut == cut + left;
    } else {
      hide Gather;
      GatherContinued(stream, cut, left, rest, [], d, max);
      assert [] + cut == cut && (cut + left)[..FRAGMENT] == cut && (cut + left)[FRAGMENT..] == left;
    }
  }

  /** The whole of readMetaFrame on a written block: the block if the decoder has nothing to object, else the
      error for what it objects to first: PROTOCOL_ERROR of the connection for too much or for more
      after an invalid field, COMPRESSION_ERROR for bad or incomplete coding, a limit of its own, and
      PROTOCOL_ERROR of the stream for an invalid field or misplaced pseudo fields. */
  lemma {:induction false} MetaRoundTripIff(stream: uint32, endStream: bool, block: seq<byte>, rest: seq<byte>,
                                            d: Decoder, max: nat)
    requires ValidStreamID(stream) && block != [] && max >= FRAGMENT
    ensures AllReadable(Fragments(stream, endStream, block))
    ensures var r := ReadMeta(EncodeAll(Fragments(stream, endStream, block)) + rest, d, max);
            && (r == Ok((block, rest)) <==>
                  FaultOf(d, [], block).None? && d.complete(block) && !d.invalid(block) && d.pseudosOk(block))
            && (r.Err? ==>
                  r.error == if FaultOf(d, [], block).Some? then FaultOf(d, [], block).value
                             else if !d.complete(block) then ConnError(9) else StreamError(stream, 1))
  {
    hide Encode, ReadFrame, Gather, FaultOf, Fragments, Readable, Writable;
    HeaderBlockRoundTrip(stream, endStream, block, rest, d, max);
  }

  lemma {:induction false} EndStreamSeen(f: Frame)
    requires f.Headers?
    ensures Has(Expected(f).header.flags, 1) <==> f.endStream
    ensures Expected(f).header.stream == f.stream && Expected(f).body == GotHeaders(f.priority, f.block)
  {
  }

  // ------------------------------------------------------------------------------- the Framer

  lemma {:induction false} EncodeAllAppend(fs: seq<Frame>, f: Frame)
    requires (forall i :: 0 <= i < |fs| ==> Writable(fs[i])) && Writable(f)
    ensures EncodeAll(fs + [f]) == EncodeAll(fs) + Encode(f)
  {
    hide Encode, Writable;
    if fs == [] {
      assert fs + [f] == [f] && [f][1..] == [];
    } else {
      assert (fs + [f])[1..] == fs[1..] + [f];
      EncodeAllAppend(fs[1..], f);
    }
  }

  lemma {:induction false} PaddedPayload(stream: uint32, endStream: bool, data: seq<byte>, pad: Option<seq<byte>>)
    requires pad.Some? ==> |pad.value| <= 255
    ensures PayloadOf(Data(stream, endStream, data, pad))
         == if pad.Some? then [|pad.value|] + data + pad.value else data
  {
  }

  /** What a Write method does with a frame: one it refuses leaves no trace; of any other a success
      means that exactly its bytes went out, a failure that a prefix of them did, and only a connection
      that fails or writes short lets it fail. */
  ghost predicate Sends(f: Frame, before: seq<byte>, after: seq<byte>, healthy: bool, ok: bool) {
    && (!Writable(f) ==> !ok && after == before)
    && (Writable(f) ==>
          && before <= after <= before + Encode(f)
          && (ok ==> after == before + Encode(f))
          && (healthy ==> ok))
  }

  lemma {:induction false} PrefixSent(before: seq<byte>, bytes: seq<byte>, n: nat)
    requires n <= |bytes|
    ensures before <= before + bytes[..n] <= before + bytes && (n == |bytes| ==> before + bytes[..n] == before + bytes)
  {
  }

  /** The writing half of Framer: a frame is built in wbuf, its length patched in, and the whole
      handed to the connection in one Write. */
  class Framer {
    var wbuf: seq<byte>
    const w: BufWriter.ByteSink

    constructor (w: BufWriter.ByteSink)
      ensures this.w == w
    {
      wbuf := [];
      this.w := w;
    }

    method StartWrite(ftype: byte, flags: byte, stream: uint32)
      modifies this`wbuf
      ensures wbuf == [0, 0, 0, ftype, flags] + U32(stream)
    {
      wbuf := [0, 0, 0, ftype, flags] + U32(stream);
    }

    /** endWrite: too long a frame is refused, otherwise its length is filled in and it is written; a
        short write is an error. */
    method EndWrite() returns (ok: bool)
      requires |wbuf| >= 9
      modifies this`wbuf, w
      ensures old(|wbuf|) - 9 >= MAX_FRAME ==> !ok && w.got == old(w.got)
      ensures old(|wbuf|) - 9 < MAX_FRAME ==>
                var bytes := U24(old(|wbuf|) - 9) + old(wbuf[3..]);
                && old(w.got) <= w.got <= old(w.got) + bytes
                && (ok ==> w.got == old(w.got) + bytes)
                && (old(w.plans) == [] ==> ok)
      ensures old(w.plans) == [] ==> w.plans == []
    {
      var length := |wbuf| - 9;
      if length >= MAX_FRAME {
        return false;
      }
      wbuf := wbuf[0 := length / 256 / 256][1 := length / 256 % 256][2 := length % 256];
      assert wbuf == U24(length) + old(wbuf[3..]);
      var n, e := w.Write(wbuf);
      PrefixSent(old(w.got), wbuf, n);
      return e.None? && n == |wbuf|;
    }

    /** Every Write method: the header, the payload, endWrite. */
    method Finish(ftype: byte, flags: byte, stream: uint32, payload: seq<byte>) returns (ok: bool)
      modifies this`wbuf, w
      ensures |payload| >= MAX_FRAME ==> !ok && w.got == old(w.got)
      ensures |payload| < MAX_FRAME ==>
                var bytes := HeaderBytes(|payload|, ftype, flags, stream) + payload;
                && old(w.got) <= w.got <= old(w.got) + bytes
                && (ok ==> w.got == old(w.got) + bytes)
                && (old(w.plans) == [] ==> ok)
      ensures old(w.plans) == [] ==> w.plans == []
    {
      StartWrite(ftype, flags, stream);
      wbuf := wbuf + payload;
      assert wbuf[3..] == [ftype, flags] + U32(stream) + payload;
      ok := EndWrite();
      if |payload| < MAX_FRAME {
        assert U24(|payload|) + ([ftype, flags] + U32(stream) + payload)
            == HeaderBytes(|payload|, ftype, flags, stream) + payload;
      }
    }

    method WriteDataPadded(stream: uint32, endStream: bool, data: seq<byte>, pad: Option<seq<byte>>) returns (ok: bool)
      modifies this`wbuf, w
      ensures var f := Data(stream, endStream, data, pad);
              Sends(f, old(w.got), w.got, old(w.plans) == [], ok) && (old(w.plans) == [] ==> w.plans == [])
    {
      hide PayloadOf, HeaderBytes;
      if !ValidStreamID(stream) || (pad.Some? && |pad.value| > 255) {
        return false;
      }
      var payload := if pad.Some? then [|pad.value|] + data + pad.value else data;
      PaddedPayload(stream, endStream, data, pad);
      ok := Finish(0, Bit(endStream, 1) + Bit(pad.Some?, 8), stream, payload);
    }

    /** Padding length, priority, fragment and padding, appended one after the other. */
    method HeadersPayload(f: Frame) returns (payload: seq<byte>)
      requires f.Headers?
      ensures payload == PayloadOf(f)
    {
      hide DependencyBytes, Zeros;
      payload := if f.padLength != 0 then [f.padLength] else [];
      if f.priority != NO_DEPENDENCY {
        payload := payload + DependencyBytes(f.priority);
      }
      payload := payload + f.block + Zeros(f.padLength);
    }

    method WriteHeaders(stream: uint32, endStream: bool, endHeaders: bool, padLength: byte, priority: Dependency,
                        block: seq<byte>)
      returns (ok: bool)
      modifies this`wbuf, w
      ensures var f := Headers(stream, endStream, endHeaders, padLength, priority, block);
              Sends(f, old(w.got), w.got, old(w.plans) == [], ok) && (old(w.plans) == [] ==> w.plans == [])
    {
      hide PayloadOf, HeaderBytes;
      if !ValidStreamID(stream) || (priority != NO_DEPENDENCY && !ValidStreamID(priority.stream)) {
        return false;
      }
      var flags := Bit(endStream, 1) + Bit(endHeaders, 4) + Bit(padLength != 0, 8)
          + Bit(priority != NO_DEPENDENCY, 0x20);
      var payload := HeadersPayload(Headers(stream, endStream, endHeaders, padLength, priority, block));
      ok := Finish(1, flags, stream, payload);
    }

    method WriteContinuation(stream: uint32, endHeaders: bool, block: seq<byte>) returns (ok: bool)
      modifies this`wbuf, w
      ensures var f := Continuation(stream, endHeaders, block);
              Sends(f, old(w.got), w.got, old(w.plans) == [], ok) && (old(w.plans) == [] ==> w.plans == [])
    {
      if !ValidStreamID(stream) {
        return false;
      }
      ok := Finish(9, Bit(endHeaders, 4), stream, block);
    }

    method WritePushPromise(stream: uint32, promise: uint32, endHeaders: bool, padLength: byte, block: seq<byte>)
      returns (ok: bool)
      modifies this`wbuf, w
      ensures var f := PushPromise(stream, promise, endHeaders, padLength, block);
              Sends(f, old(w.got), w.got, old(w.plans) == [], ok) && (old(w.plans) == [] ==> w.plans == [])
    {
      hide HeaderBytes, Zeros, U32;
      if !ValidStreamID(stream) || !ValidStreamID(promise) {
        return false;
      }
      var payload := (if padLength != 0 then [padLength] else []) + U32(promise) + block + Zeros(padLength);
      ok := Finish(5, Bit(endHeaders, 4) + Bit(padLength != 0, 8), stream, payload);
    }

    method WriteSettings(settings: seq<Setting>) returns (ok: bool)
      modifies this`wbuf, w
      ensures var f := Settings(settings);
              Sends(f, old(w.got), w.got, old(w.plans) == [], ok) && (old(w.plans) == [] ==> w.plans == [])
    {
      var payload := [];
      for i := 0 to |settings|
        invariant payload + SettingBytes(settings[i..]) == SettingBytes(settings)
      {
        payload := payload + U16(settings[i].id) + U32(settings[i].val);
        assert settings[i..][1..] == settings[i + 1..];
      }
      assert settings[|settings|..] == [];
      assert payload == SettingBytes(settings);
      ok := Finish(4, 0, 0, payload);
    }

    method WriteSettingsAck() returns (ok: bool)
      modifies this`wbuf, w
      ensures var f := SettingsAck;
              Sends(f, old(w.got), w.got, old(w.plans) == [], ok) && (old(w.plans) == [] ==> w.plans == [])
    {
      ok := Finish(4, 1, 0, []);
    }

    method WritePing(ack: bool, data: seq<byte>) returns (ok: bool)
      requires |data| == 8
      modifies this`wbuf, w
      ensures var f := Ping(ack, data);
              Sends(f, old(w.got), w.got, old(w.plans) == [], ok) && (old(w.plans) == [] ==> w.plans == [])
    {
      ok := Finish(6, Bit(ack, 1), 0, data);
    }

    method WriteGoAway(last: uint32, code: uint32, debug: seq<byte>) returns (ok: bool)
      modifies this`wbuf, w
      ensures var f := GoAway(last, code, debug);
              Sends(f, old(w.got), w.got, old(w.plans) == [], ok) && (old(w.plans) == [] ==> w.plans == [])
    {
      ok := Finish(7, 0, 0, U32(Masked(last)) + U32(code) + debug);
    }

    method WriteWindowUpdate(stream: uint32, increment: uint32) returns (ok: bool)
      modifies this`wbuf, w
      ensures var f := WindowUpdate(stream, increment);
              Sends(f, old(w.got), w.got, old(w.plans) == [], ok) && (old(w.plans) == [] ==> w.plans == [])
    {
      if increment < 1 || increment > 2147483647 {
        return false;
      }
      ok := Finish(8, 0, stream, U32(increment));
    }

    method WriteRSTStream(stream: uint32, code: uint32) returns (ok: bool)
      modifies this`wbuf, w
      ensures var f := RSTStream(stream, code);
              Sends(f, old(w.got), w.got, old(w.plans) == [], ok) && (old(w.plans) == [] ==> w.plans == [])
    {
      if !ValidStreamID(stream) {
        return false;
      }
      ok := Finish(3, 0, stream, U32(code));
    }

    method WritePriority(stream: uint32, priority: Dependency) returns (ok: bool)
      modifies this`wbuf, w
      ensures var f := Priority(stream, priority);
              Sends(f, old(w.got), w.got, old(w.plans) == [], ok) && (old(w.plans) == [] ==> w.plans == [])
    {
      hide HeaderBytes, U32;
      if !ValidStreamID(stream) {
        return false;
      }
      var v := priority.stream;
      if priority.exclusive && v < HIGH_BIT {
        v := v + HIGH_BIT;
      }
      ok := Finish(2, 0, stream, U32(v) + [priority.weight]);
    }

    method WriteRawFrame(ftype: byte, flags: byte, stream: uint32, payload: seq<byte>) returns (ok: bool)
      modifies this`wbuf, w
      ensures var f := Raw(ftype, flags, stream, payload);
              Sends(f, old(w.got), w.got, old(w.plans) == [], ok) && (old(w.plans) == [] ==> w.plans == [])
    {
      ok := Finish(ftype, flags, stream, payload);
    }

    /** HEADERS for the first fragment of a block, CONTINUATION for the others. */
    method WriteFragment(stream: uint32, endStream: bool, endHeaders: bool, frag: seq<byte>, first: bool)
      returns (ok: bool)
      requires 0 < |frag| <= FRAGMENT
      modifies this`wbuf, w
      ensures var f := if first then Headers(stream, endStream, endHeaders, 0, NO_DEPENDENCY, frag)
                       else Continuation(stream, endHeaders, frag);
              && (ValidStreamID(stream) <==> Writable(f)) && (Writable(f) ==> Readable(f))
              && Sends(f, old(w.got), w.got, old(w.plans) == [], ok) && (old(w.plans) == [] ==> w.plans == [])
    {
      hide Encode, Sends;
      if first {
        ok := WriteHeaders(stream, endStream, endHeaders, 0, NO_DEPENDENCY, frag);
      } else {
        ok := WriteContinuation(stream, endHeaders, frag);
      }
    }

    /** The loop of writeResHeaders.writeFrame: what reaches the connection are exactly the fragments
        of the block, in order, or after an error a prefix of them. */
    method WriteHeaderBlock(stream: uint32, endStream: bool, headerBlock: seq<byte>) returns (ok: bool)
      modifies this`wbuf, w
      ensures !ValidStreamID(stream) ==> w.got == old(w.got) && (ok <==> headerBlock == [])
      ensures ValidStreamID(stream) ==>
                && AllReadable(Fragments(stream, endStream, headerBlock))
                && var bytes := EncodeAll(Fragments(stream, endStream, headerBlock));
                   && old(w.got) <= w.got <= old(w.got) + bytes
                   && (ok ==> w.got == old(w.got) + bytes)
                   && (old(w.plans) == [] ==> ok)
    {
      hide Encode, EncodeAll, Writable, Readable, ValidStreamID, Fragments, Left;
      NothingLeft(stream, endStream, headerBlock);
      if ValidStreamID(stream) && headerBlock != [] { FragmentsShape(stream, endStream, headerBlock); }
      var block := headerBlock;
      var first := true;
      ghost var done: seq<Frame> := [];
      while |block| > 0
        invariant first ==> block == headerBlock && done == []
        invariant AllReadable(done) && (!first ==> ValidStreamID(stream))
        invariant done + Left(stream, endStream, block, first) == Fragments(stream, endStream, headerBlock)
        invariant w.got == old(w.got) + EncodeAll(done) && (old(w.plans) == [] ==> w.plans == [])
        decreases |block|
      {
        NextFragment(stream, endStream, block, first);
        var frag := block;
        if |frag| > FRAGMENT {
          frag := frag[..FRAGMENT];
        }
        block := block[|frag|..];
        var endHeaders := |block| == 0;
        ghost var f := if first then Headers(stream, endStream, endHeaders, 0, NO_DEPENDENCY, frag)
                       else Continuation(stream, endHeaders, frag);
        ok := WriteFragment(stream, endStream, endHeaders, frag, first);
        Regroup(done, [f], Left(stream, endStream, block, false));
        if !ok {
          if ValidStreamID(stream) { CutOff(old(w.got), done, f, Left(stream, endStream, block, false), w.got); }
          return false;
        }
        first := false;
        EncodeAllAppend(done, f);
        Regroup(old(w.got), EncodeAll(done), Encode(f));
        done := done + [f];
      }
      assert done + [] == done;
      ok := true;
    }
  }

  lemma {:induction false} EncodeAllJoin(a: seq<Frame>, b: seq<Frame>)
    requires AllReadable(a) && AllReadable(b)
    ensures AllReadable(a + b) && EncodeAll(a + b) == EncodeAll(a) + EncodeAll(b)
  {
    hide Encode, Writable, Readable;
    if a == [] {
      assert a + b == b;
    } else {
      assert (a + b)[1..] == a[1..] + b;
      EncodeAllJoin(a[1..], b);
    }
  }

  /** A failure within f leaves a prefix of all the frames. */
  lemma {:induction false} CutOff(before: seq<byte>, done: seq<Frame>, f: Frame, left: seq<Frame>, got: seq<byte>)
    requires AllReadable(done + [f] + left)
    requires AllReadable(done) && Writable(f) && before + EncodeAll(done) <= got <= before + EncodeAll(done) + Encode(f)
    ensures before <= got <= before + EncodeAll(done + [f] + left)
  {
    hide Encode, Writable, Readable;
    var all := done + [f] + left;
    assert (done + [f])[|done|] == f;
    assert forall i :: 0 <= i < |done| + 1 ==> all[i] == (done + [f])[i];
    assert AllReadable(done + [f]);
    assert forall i :: 0 <= i < |left| ==> all[|done| + 1 + i] == left[i];
    EncodeAllAppend(done, f);
    EncodeAllJoin(done + [f], left);
    assert before + EncodeAll(all) == before + EncodeAll(done) + Encode(f) + EncodeAll(left);
  }

  /** The fragments still to be written. */
  ghost function Left(stream: uint32, endStream: bool, block: seq<byte>, first: bool): seq<Frame> {
    if first then Fragments(stream, endStream, block) else Continued(stream, block)
  }

  lemma {:induction false} Regroup<T>(a: seq<T>, b: seq<T>, c: seq<T>)
    ensures a + b + c == a + (b + c)
  {
  }

  lemma {:induction false} NothingLeft(stream: uint32, endStream: bool, block: seq<byte>)
    ensures Left(stream, endStream, block, true) == Fragments(stream, endStream, block)
    ensures Left(stream, endStream, [], true) == [] && Left(stream, endStream, [], false) == [] && EncodeAll([]) == []
  {
  }

  lemma {:induction false} NextFragment(stream: uint32, endStream: bool, block: seq<byte>, first: bool)
    requires block != []
    ensures var frag := if |block| > FRAGMENT then block[..FRAGMENT] else block;
            var left := block[|frag|..];
            var f := if first then Headers(stream, endStream, left == [], 0, NO_DEPENDENCY, frag)
                     else Continuation(stream, left == [], frag);
            Left(stream, endStream, block, first) == [f] + Left(stream, endStream, left, false)
  {
  }
}
