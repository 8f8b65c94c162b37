/** The octets of HTTP/2 frames, as sections 4 and 6 of RFC 7540 lay them out: where every field of a
    written frame is, and what a received frame means or why it is an error. Numbers are given by the
    weights of their octets, not by the functions that write and read them. */
module WireFormat {
  import opened Basics
  import opened FrameCodec

  /** The number at offset i, most significant octet first. */
  function At16(p: seq<byte>, i: nat): uint16
    requires i + 2 <= |p|
  {
    0x100 * (p[i] as int) + p[i + 1]
  }

  function At24(p: seq<byte>, i: nat): nat
    requires i + 3 <= |p|
  {
    0x1_0000 * (p[i] as int) + 0x100 * (p[i + 1] as int) + p[i + 2]
  }

  function At32(p: seq<byte>, i: nat): uint32
    requires i + 4 <= |p|
  {
    0x100_0000 * (p[i] as int) + 0x1_0000 * (p[i + 1] as int) + 0x100 * (p[i + 2] as int) + p[i + 3]
  }

  // ----------------------------------------------------------------------------------- numbers

  /** Numbers are written most significant octet first. */
  lemma {:induction false} WrittenBigEndian(v: uint32)
    ensures |U32(v)| == 4 && At32(U32(v), 0) == v
    ensures v < MAX_FRAME ==> |U24(v)| == 3 && At24(U24(v), 0) == v
    ensures v < 0x1_0000 ==> |U16(v)| == 2 && At16(U16(v), 0) == v
  {
    assert U32(v)[..3] == U24(v / 256);
    assert v / 256 == At24(U32(v), 0);
  }

  /** And read so. */
  lemma {:induction false} ReadBigEndian(p: seq<byte>)
    ensures |p| == 4 ==> FromU32(p) == At32(p, 0)
    ensures |p| == 3 ==> FromU24(p) == At24(p, 0)
    ensures |p| == 2 ==> FromU16(p) == At16(p, 0)
  {
  }

  lemma {:induction false} ReadAt(p: seq<byte>, i: nat)
    ensures i + 4 <= |p| ==> FromU32(p[i..i + 4]) == At32(p, i)
    ensures i + 3 <= |p| ==> FromU24(p[i..i + 3]) == At24(p, i)
    ensures i + 2 <= |p| ==> FromU16(p[i..i + 2]) == At16(p, i)
  {
    if i + 4 <= |p| { ReadBigEndian(p[i..i + 4]); }
    if i + 3 <= |p| { ReadBigEndian(p[i..i + 3]); }
    if i + 2 <= |p| { ReadBigEndian(p[i..i + 2]); }
  }

  /** The number v stands at offset i. */
  ghost predicate Holds16(p: seq<byte>, i: nat, v: nat) { i + 2 <= |p| && At16(p, i) == v }

  ghost predicate Holds32(p: seq<byte>, i: nat, v: nat) { i + 4 <= |p| && At32(p, i) == v }

  lemma {:induction false} Written32(a: seq<byte>, v: uint32, b: seq<byte>)
    ensures Holds32(a + U32(v) + b, |a|, v)
  {
    WrittenBigEndian(v);
  }

  lemma {:induction false} Written16(a: seq<byte>, v: uint16, b: seq<byte>)
    ensures Holds16(a + U16(v) + b, |a|, v)
  {
    WrittenBigEndian(v);
  }

  // ------------------------------------------------------------------------------ frames written

  /** A stream id with the reserved bit clear that is not 0. */
  predicate OfStream(id: uint32) { 0 < id <= 0x7fff_ffff }

  /** What the Write methods refuse: a payload that does not fit in 24 bits of length, an illegal stream id
      where one is needed, padding over 255 octets, an increment of 0 or over 2^31-1. */
  lemma {:induction false} RefusedIff(f: Frame)
    ensures !Writable(f) <==>
              || |PayloadOf(f)| > 0xff_ffff
              || ((f.Data? || f.Headers? || f.Priority? || f.RSTStream? || f.PushPromise? || f.Continuation?)
                  && !OfStream(f.stream))
              || (f.Data? && f.pad.Some? && |f.pad.value| > 255)
              || (f.Headers? && f.priority != Dependency(0, false, 0) && !OfStream(f.priority.stream))
              || (f.PushPromise? && !OfStream(f.promise))
              || (f.Ping? && |f.opaqueData| != 8)
              || (f.WindowUpdate? && !(0 < f.increment <= 0x7fff_ffff))
  {
    hide PayloadOf;
  }

  /** The nine octets of the frame header: length, type, flags, stream. */
  lemma {:induction false} HeaderOnWire(f: Frame)
    requires Writable(f)
    ensures var r := Encode(f);
            && |r| >= 9 && At24(r, 0) == |r| - 9 && r[3] == TypeOf(f) && r[4] == FlagsOf(f) && At32(r, 5) == StreamOf(f)
            && r[9..] == PayloadOf(f)
  {
    hide PayloadOf, FlagsOf, TypeOf, StreamOf, U32, U24;
    PayloadBounded(f);
    WrittenBigEndian(|PayloadOf(f)|);
    WrittenBigEndian(StreamOf(f));
  }

  /** The registered type numbers, and the stream of each frame: 0 for those of the whole connection. */
  lemma {:induction false} TypesOnWire(f: Frame)
    ensures f.Data? ==> TypeOf(f) == 0
    ensures f.Headers? ==> TypeOf(f) == 1
    ensures f.Priority? ==> TypeOf(f) == 2
    ensures f.RSTStream? ==> TypeOf(f) == 3
    ensures f.Settings? || f.SettingsAck? ==> TypeOf(f) == 4
    ensures f.PushPromise? ==> TypeOf(f) == 5
    ensures f.Ping? ==> TypeOf(f) == 6
    ensures f.GoAway? ==> TypeOf(f) == 7
    ensures f.WindowUpdate? ==> TypeOf(f) == 8
    ensures f.Continuation? ==> TypeOf(f) == 9
    ensures f.Raw? ==> TypeOf(f) == f.ftype
    ensures StreamOf(f) == if f.Settings? || f.SettingsAck? || f.Ping? || f.GoAway? then 0 else f.stream
  {
  }

  /** The flag bits by number: 0 END_STREAM or ACK, 2 END_HEADERS, 3 PADDED, 5 PRIORITY, no others. */
  lemma {:induction false} FlagsOnWire(f: Frame)
    ensures var b := FlagsOf(f);
            if f.Raw? then b == f.flags else
              && (b % 2 == 1 <==> ((f.Data? || f.Headers?) && f.endStream) || f.SettingsAck? || (f.Ping? && f.ack))
              && b / 2 % 2 == 0
              && (b / 4 % 2 == 1 <==> (f.Headers? || f.PushPromise? || f.Continuation?) && f.endHeaders)
              && (b / 8 % 2 == 1 <==>
                    (f.Data? && f.pad.Some?) || ((f.Headers? || f.PushPromise?) && f.padLength > 0))
              && b / 16 % 2 == 0
              && (b / 32 % 2 == 1 <==>
                    f.Headers? && (f.priority.stream != 0 || f.priority.exclusive || f.priority.weight != 0))
              && b / 64 == 0
  {
  }

  lemma {:induction false} DataOnWire(f: Frame)
    requires f.Data? && Writable(f)
    ensures var p := PayloadOf(f);
            match f.pad
            case None => p == f.data
            case Some(pad) =>
              && |p| == 1 + |f.data| + |pad| && p[0] == |pad|
              && p[1..1 + |f.data|] == f.data && p[1 + |f.data|..] == pad
  {
  }

  /** A dependency: the exclusive bit above the 31 bits of the stream, then the weight. */
  ghost predicate HoldsDependency(p: seq<byte>, i: nat, d: Dependency) {
    && Holds32(p, i, if d.exclusive && d.stream < HIGH_BIT then d.stream + 0x8000_0000 else d.stream)
    && i + 5 <= |p| && p[i + 4] == d.weight
  }

  lemma {:induction false} WrittenDependency(a: seq<byte>, d: Dependency, b: seq<byte>)
    ensures |DependencyBytes(d)| == 5 && HoldsDependency(a + DependencyBytes(d) + b, |a|, d)
  {
    var v := if d.exclusive && d.stream < HIGH_BIT then d.stream + HIGH_BIT else d.stream;
    Written32(a, v, [d.weight] + b);
    assert a + DependencyBytes(d) + b == a + U32(v) + ([d.weight] + b);
  }

  /** HEADERS: the padding length if there is padding, the dependency if there is one, the fragment, and
      the padding, which is zeros. */
  lemma {:induction false} HeadersOnWire(f: Frame)
    requires f.Headers?
    ensures var p := PayloadOf(f);
            var i := if f.padLength > 0 then 1 else 0;
            var j := if f.priority == Dependency(0, false, 0) then i else i + 5;
            && |p| == j + |f.block| + f.padLength
            && (f.padLength > 0 ==> p[0] == f.padLength)
            && (f.priority != Dependency(0, false, 0) ==> HoldsDependency(p, i, f.priority))
            && p[j..j + |f.block|] == f.block
            && (forall k :: j + |f.block| <= k < |p| ==> p[k] == 0)
  {
    hide DependencyBytes, Holds32;
    var a: seq<byte> := if f.padLength != 0 then [f.padLength] else [];
    var prio := if f.priority != NO_DEPENDENCY then DependencyBytes(f.priority) else [];
    var p := PayloadOf(f);
    assert p == a + prio + f.block + Zeros(f.padLength);
    WrittenDependency(a, f.priority, f.block + Zeros(f.padLength));
    assert a + prio + (f.block + Zeros(f.padLength)) == p;
  }

  lemma {:induction false} PushPromiseOnWire(f: Frame)
    requires f.PushPromise?
    ensures var p := PayloadOf(f);
            var i := if f.padLength > 0 then 1 else 0;
            && |p| == i + 4 + |f.block| + f.padLength
            && (f.padLength > 0 ==> p[0] == f.padLength)
            && Holds32(p, i, f.promise) && p[i + 4..i + 4 + |f.block|] == f.block
            && (forall k :: i + 4 + |f.block| <= k < |p| ==> p[k] == 0)
  {
    hide U32, Holds32;
    var a: seq<byte> := if f.padLength != 0 then [f.padLength] else [];
    Written32(a, f.promise, f.block + Zeros(f.padLength));
    assert PayloadOf(f) == a + U32(f.promise) + (f.block + Zeros(f.padLength));
  }

  /** SETTINGS: six octets each, identifier and value. */
  lemma {:induction false} SettingsOnWire(ss: seq<Setting>, i: nat)
    requires i < |ss|
    ensures |SettingBytes(ss)| == 6 * |ss|
    ensures Holds16(SettingBytes(ss), 6 * i, ss[i].id) && Holds32(SettingBytes(ss), 6 * i + 2, ss[i].val)
  {
    hide U16, U32;
    var tail := SettingBytes(ss[1..]);
    Written16([], ss[0].id, U32(ss[0].val) + tail);
    Written32(U16(ss[0].id), ss[0].val, tail);
    assert [] + U16(ss[0].id) + (U32(ss[0].val) + tail) == SettingBytes(ss);
    WrittenBigEndian(ss[0].id);
    if i > 0 { SettingsOnWire(ss[1..], i - 1); }
  }

  /** The frames with fields at fixed places; GOAWAY clears the reserved bit. */
  lemma {:induction false} FixedOnWire(f: Frame)
    ensures var p := PayloadOf(f);
            match f
            case Priority(_, d) => |p| == 5 && HoldsDependency(p, 0, d)
            case RSTStream(_, code) => |p| == 4 && Holds32(p, 0, code)
            case Settings(ss) => p == SettingBytes(ss)
            case SettingsAck => p == []
            case Ping(_, data) => p == data
            case GoAway(last, code, debug) =>
              Holds32(p, 0, last % 0x8000_0000) && Holds32(p, 4, code) && p[8..] == debug
            case WindowUpdate(_, inc) => |p| == 4 && Holds32(p, 0, inc)
            case Continuation(_, _, block) => p == block
            case Raw(_, _, _, payload) => p == payload
            case _ => true
  {
    hide U32, DependencyBytes, HoldsDependency, Holds32;
    var p := PayloadOf(f);
    match f
    case Priority(_, d) =>
      WrittenDependency([], d, []);
      assert [] + DependencyBytes(d) + [] == p;
    case RSTStream(_, code) =>
      Written32([], code, []);
      assert [] + U32(code) + [] == p;
    case GoAway(last, code, debug) =>
      Written32([], Masked(last), U32(code) + debug);
      assert [] + U32(Masked(last)) + (U32(code) + debug) == p;
      Written32(U32(Masked(last)), code, debug);
    case WindowUpdate(_, inc) =>
      Written32([], inc, []);
      assert [] + U32(inc) + [] == p;
    case _ =>
  }

  // -------------------------------------------------------------------------------- frames read

  /** ReadFrame: nine octets of header, a length within the limit, as many octets of payload, and what
      follows is left. */
  lemma {:induction false} FrameRead(input: seq<byte>, maxReadSize: nat)
    ensures var r := ReadOne(input, maxReadSize);
            if |input| < 9 then r == Err(UnexpectedEOF)
            else if At24(input, 0) > maxReadSize then r == Err(FrameTooLarge)
            else if |input| < 9 + At24(input, 0) then r == Err(UnexpectedEOF)
            else
              var h := Header(At24(input, 0), input[3], input[4], At32(input, 5) % 0x8000_0000);
              var (p, rest) := (input[9..9 + h.length], input[9 + h.length..]);
              && (Parse(h, p).Err? ==> r == Err(Parse(h, p).error))
              && (Parse(h, p).Ok? ==> r == Ok((Got(h, Parse(h, p).value), rest)))
  {
    hide Parse, FromU24, FromU32, At24, At32;
    if |input| >= 9 {
      ReadAt(input, 0);
      ReadAt(input, 5);
      var p := input[..9];
      assert p[..3] == input[0..3] && p[5..9] == input[5..9];
    }
  }

  predicate Bit(flags: byte, mask: nat)
    requires mask > 0
  {
    flags / mask % 2 == 1
  }

  /** The frame is for a stream and names none, or the other way round. */
  predicate WrongStream(h: Header) {
    if h.ftype in {0, 1, 2, 3, 5, 9} then h.stream == 0 else h.ftype in {4, 6, 7} && h.stream != 0
  }

  /** A SETTINGS acknowledgement with a payload. */
  predicate LongAck(h: Header) { h.ftype == 4 && h.flags % 2 == 1 && h.length > 0 }

  predicate WrongSize(h: Header, p: seq<byte>) {
    || (h.ftype == 2 && |p| != 5) || (h.ftype == 3 && |p| != 4)
    || LongAck(h) || (h.ftype == 4 && |p| % 6 != 0)
    || (h.ftype == 6 && |p| != 8) || (h.ftype == 7 && |p| < 8) || (h.ftype == 8 && |p| != 4)
  }

  /** Octets of DATA, HEADERS or PUSH_PROMISE before the data or the fragment: padding length,
      dependency, promised stream. */
  function Prefix(h: Header): nat {
    (if h.ftype in {0, 1, 5} && Bit(h.flags, 8) then 1 else 0)
    + (if h.ftype == 1 && Bit(h.flags, 32) then 5 else 0)
    + (if h.ftype == 5 then 4 else 0)
  }

  function Padding(h: Header, p: seq<byte>): nat {
    if h.ftype in {0, 1, 5} && Bit(h.flags, 8) && p != [] then p[0] else 0
  }

  predicate Truncated(h: Header, p: seq<byte>) { |p| < Prefix(h) }

  /** The padding does not fit behind the prefix; for HEADERS a fragment must be left as well. */
  predicate NoRoom(h: Header, p: seq<byte>) {
    if h.ftype == 1 then |p| <= Prefix(h) + Padding(h, p)
    else h.ftype in {0, 5} && |p| < Prefix(h) + Padding(h, p)
  }

  predicate ZeroIncrement(h: Header, p: seq<byte>) { h.ftype == 8 && |p| == 4 && At32(p, 0) % 0x8000_0000 == 0 }

  /** The first initial window size in the frame is over the limit. */
  ghost predicate BadWindow(h: Header, p: seq<byte>) {
    h.ftype == 4 && |p| % 6 == 0 && exists i: nat :: FirstWindow(p, i) && At32(p, 6 * i + 2) >= 0x8000_0000
  }

  ghost predicate FirstWindow(p: seq<byte>, i: nat) {
    6 * i + 6 <= |p| && At16(p, 6 * i) == 4 && forall k :: 0 <= k < i ==> Unlike(p, k)
  }

  ghost predicate Unlike(p: seq<byte>, k: nat) { 6 * k + 6 <= |p| && At16(p, 6 * k) != 4 }

  /** Where stream and size are both wrong: these check the stream first. */
  predicate StreamFirst(h: Header) { h.ftype in {2, 7} || (h.ftype == 4 && !LongAck(h)) }

  /** The settings one by one. */
  lemma {:induction false} SettingsRead(p: seq<byte>, i: nat)
    requires |p| % 6 == 0 && 6 * i + 6 <= |p|
    ensures |EachSetting(p)| == |p| / 6 && EachSetting(p)[i] == Setting(At16(p, 6 * i), At32(p, 6 * i + 2))
    decreases |p|
  {
    hide FromU16, FromU32, At16, At32;
    var q := p[6..];
    ReadAt(p, 0);
    ReadAt(p, 2);
    assert p[..2] == p[0..2];
    if i > 0 {
      SettingsRead(q, i - 1);
      Shifted(p, 6 * (i - 1));
    } else if q != [] {
      SettingsRead(q, 0);
    }
  }

  lemma {:induction false} Shifted(p: seq<byte>, i: nat)
    requires i + 12 <= |p|
    ensures At16(p[6..], i) == At16(p, i + 6) && At32(p[6..], i + 2) == At32(p, i + 8)
  {
  }

  lemma {:induction false} FirstWindowRead(p: seq<byte>)
    requires |p| % 6 == 0
    ensures SettingValue(p, 4).None? ==> forall i: nat :: !FirstWindow(p, i)
    ensures forall i: nat :: FirstWindow(p, i) ==> SettingValue(p, 4) == Some(At32(p, 6 * i + 2))
    ensures SettingValue(p, 4).Some? ==> exists i: nat :: FirstWindow(p, i)
    decreases |p|
  {
    hide FromU16, FromU32, At16, At32;
    if p != [] {
      var q := p[6..];
      FirstWindowRead(q);
      ReadAt(p, 0);
      ReadAt(p, 2);
      assert p[..2] == p[0..2];
      if At16(p, 0) == 4 {
        assert FirstWindow(p, 0);
        forall i: nat | FirstWindow(p, i)
          ensures i == 0
        {
          assert i > 0 ==> Unlike(p, 0);
        }
      } else {
        forall i: nat | FirstWindow(p, i)
          ensures i > 0 && FirstWindow(q, i - 1) && At32(q, 6 * (i - 1) + 2) == At32(p, 6 * i + 2)
        {
          WindowLater(p, i);
        }
        if i: nat :| FirstWindow(q, i) {
          WindowEarlier(p, i);
          assert FirstWindow(p, i + 1);
        }
      }
    }
  }

  lemma {:induction false} WindowLater(p: seq<byte>, i: nat)
    requires FirstWindow(p, i) && |p| >= 6 && At16(p, 0) != 4
    ensures i > 0 && FirstWindow(p[6..], i - 1) && At32(p[6..], 6 * (i - 1) + 2) == At32(p, 6 * i + 2)
  {
    hide At16, At32;
    Shifted(p, 6 * (i - 1));
    forall k | 0 <= k < i - 1
      ensures Unlike(p[6..], k)
    {
      assert Unlike(p, k + 1);
      Shifted(p, 6 * k);
    }
  }

  lemma {:induction false} WindowEarlier(p: seq<byte>, i: nat)
    requires |p| >= 6 && FirstWindow(p[6..], i) && At16(p, 0) != 4
    ensures FirstWindow(p, i + 1)
  {
    hide At16, At32;
    Shifted(p, 6 * i);
    forall k | 0 <= k < i + 1
      ensures Unlike(p, k)
    {
      if k > 0 {
        assert Unlike(p[6..], k - 1);
        Shifted(p, 6 * (k - 1));
      }
    }
  }

  /** No fault at all. */
  ghost predicate Sound(h: Header, p: seq<byte>) {
    && !WrongStream(h) && !WrongSize(h, p) && !Truncated(h, p) && !NoRoom(h, p)
    && !ZeroIncrement(h, p) && !BadWindow(h, p)
  }

  /** Which faults a received frame is answered for, and how: PROTOCOL_ERROR (1), FLOW_CONTROL_ERROR (3) and
      FRAME_SIZE_ERROR (6) of the connection, PROTOCOL_ERROR of the stream for HEADERS without a fragment
      and a zero increment; a frame cut short within its prefix ends the reading. A frame is delivered
      exactly when it has no fault. */
  lemma {:induction false} FaultsAnswered(h: Header, p: seq<byte>)
    ensures var r := Parse(h, p);
            var sized := WrongSize(h, p) && !(WrongStream(h) && StreamFirst(h));
            var room := !WrongStream(h) && !Truncated(h, p) && NoRoom(h, p);
            && (r.Ok? <==> Sound(h, p))
            && (r == Err(ConnError(6)) <==> sized)
            && (r == Err(ConnError(3)) <==> !WrongStream(h) && !WrongSize(h, p) && BadWindow(h, p))
            && (r == Err(UnexpectedEOF) <==> !WrongStream(h) && Truncated(h, p))
            && (r == Err(StreamError(h.stream, 1)) <==>
                  (h.ftype == 1 && room) || (ZeroIncrement(h, p) && h.stream != 0))
            && (r == Err(ConnError(1)) <==>
                  (WrongStream(h) && !sized) || (h.ftype != 1 && room) || (ZeroIncrement(h, p) && h.stream == 0))
  {
    hide FromU32, FromU16, EachSetting, SettingValue, ReadDependency, At32, At16, ParseHeaders, ParseData,
         ParsePushPromise, ParseSettings, BadWindow, Masked;
    if h.ftype != 4 { OtherWindow(h, p); }
    match h.ftype
    case 0 => DataFaults(h, p);
    case 1 => HeadersFaults(h, p);
    case 4 => SettingsFaults(h, p);
    case 5 => PushPromiseFaults(h, p);
    case 8 => if |p| == 4 { MaskedRead(p); }
    case _ =>
  }

  lemma {:induction false} OtherWindow(h: Header, p: seq<byte>)
    requires h.ftype != 4
    ensures !BadWindow(h, p)
  {
  }

  lemma {:induction false} MaskedRead(p: seq<byte>)
    requires |p| == 4
    ensures Masked(FromU32(p)) == At32(p, 0) % 0x8000_0000
  {
    ReadBigEndian(p);
  }

  lemma {:induction false} DataFaults(h: Header, p: seq<byte>)
    requires h.ftype == 0
    ensures ParseData(h, p)
         == if h.stream == 0 then Err(ConnError(1))
            else if Truncated(h, p) then Err(UnexpectedEOF)
            else if NoRoom(h, p) then Err(ConnError(1))
            else Ok(GotData(p[Prefix(h)..|p| - Padding(h, p)]))
  {
    assert p[0..|p|] == p;
  }

  lemma {:induction false} Middle(p: seq<byte>, i: nat, n: nat, pad: nat)
    requires i <= |p|
    ensures p[0..] == p
    ensures i + n + pad <= |p| ==>
              && p[i..][n..][..|p| - i - n - pad] == p[i + n..|p| - pad]
              && p[i..][n..|p| - i - pad] == p[i + n..|p| - pad]
              && (n == 0 ==> p[i..][..|p| - i - pad] == p[i..|p| - pad])
  {
  }

  /** The dependency at offset i. */
  function DependencyAt(p: seq<byte>, i: nat): Dependency
    requires i + 5 <= |p|
  {
    Dependency(At32(p, i) % 0x8000_0000, At32(p, i) >= 0x8000_0000, p[i + 4])
  }

  lemma {:induction false} DependencyRead(p: seq<byte>, i: nat)
    requires i + 5 <= |p|
    ensures ReadDependency(p[i..i + 5]) == DependencyAt(p, i)
  {
    hide FromU32, At32;
    var q := p[i..i + 5];
    assert q[..4] == p[i..i + 4];
    ReadAt(p, i);
  }

  lemma {:induction false} HeadersFaults(h: Header, p: seq<byte>)
    requires h.ftype == 1
    ensures ParseHeaders(h, p)
         == if h.stream == 0 then Err(ConnError(1))
            else if Truncated(h, p) then Err(UnexpectedEOF)
            else if NoRoom(h, p) then Err(StreamError(h.stream, 1))
            else Ok(GotHeaders(if Bit(h.flags, 32) then DependencyAt(p, Prefix(h) - 5) else Dependency(0, false, 0),
                               p[Prefix(h)..|p| - Padding(h, p)]))
  {
    hide ReadDependency, DependencyAt;
    var i := if Bit(h.flags, 8) then 1 else 0;
    if |p| >= i {
      var q := p[i..];
      if |q| >= 5 {
        DependencyRead(p, i);
        assert q[..5] == p[i..i + 5];
      }
      Middle(p, i, if Bit(h.flags, 32) then 5 else 0, Padding(h, p));
    }
  }

  lemma {:induction false} PushPromiseFaults(h: Header, p: seq<byte>)
    requires h.ftype == 5
    ensures ParsePushPromise(h, p)
         == if h.stream == 0 then Err(ConnError(1))
            else if Truncated(h, p) then Err(UnexpectedEOF)
            else if NoRoom(h, p) then Err(ConnError(1))
            else Ok(GotPushPromise(At32(p, Prefix(h) - 4) % 0x8000_0000, p[Prefix(h)..|p| - Padding(h, p)]))
  {
    hide FromU32, At32;
    var i := if Bit(h.flags, 8) then 1 else 0;
    if |p| >= i + 4 {
      var q := p[i..];
      ReadAt(p, i);
      assert q[..4] == p[i..i + 4];
      Middle(p, i, 4, Padding(h, p));
    }
  }

  lemma {:induction false} SettingsFaults(h: Header, p: seq<byte>)
    requires h.ftype == 4
    ensures ParseSettings(h, p)
         == if LongAck(h) then Err(ConnError(6))
            else if h.stream != 0 then Err(ConnError(1))
            else if |p| % 6 != 0 then Err(ConnError(6))
            else if BadWindow(h, p) then Err(ConnError(3))
            else Ok(GotSettings(EachSetting(p)))
  {
    hide EachSetting, SettingValue, FirstWindow, At32;
    if |p| % 6 == 0 { FirstWindowRead(p); }
  }

  /** What a delivered frame holds, by the offsets in its payload. */
  lemma {:induction false} ContentsRead(h: Header, p: seq<byte>)
    requires Parse(h, p).Ok?
    ensures Sound(h, p)
    ensures var b := Parse(h, p).value;
            match h.ftype
            case 0 => b == GotData(p[Prefix(h)..|p| - Padding(h, p)])
            case 1 =>
              b == GotHeaders(if Bit(h.flags, 32) then DependencyAt(p, Prefix(h) - 5) else Dependency(0, false, 0),
                              p[Prefix(h)..|p| - Padding(h, p)])
            case 2 => b == GotPriority(DependencyAt(p, 0))
            case 3 => b == GotReset(At32(p, 0))
            case 4 =>
              && b.GotSettings? && |b.settings| == |p| / 6
              && forall i :: 0 <= i < |p| / 6 ==> b.settings[i] == Setting(At16(p, 6 * i), At32(p, 6 * i + 2))
            case 5 => b == GotPushPromise(At32(p, Prefix(h) - 4) % 0x8000_0000, p[Prefix(h)..|p| - Padding(h, p)])
            case 6 => b == GotPing(p)
            case 7 => b == GotGoAway(At32(p, 0) % 0x8000_0000, At32(p, 4), p[8..])
            case 8 => b == GotWindowUpdate(At32(p, 0) % 0x8000_0000)
            case 9 => b == GotContinuation(p)
            case _ => b == GotUnknown(p)
  {
    hide FromU32, FromU16, EachSetting, SettingValue, ReadDependency, DependencyAt, At32, At16, ParseHeaders, ParseData,
         ParsePushPromise, ParseSettings, BadWindow, NoRoom;
    FaultsAnswered(h, p);
    match h.ftype
    case 0 => DataFaults(h, p);
    case 1 => HeadersFaults(h, p);
    case 2 =>
      DependencyRead(p, 0);
      assert p[0..5] == p;
    case 3 => ReadBigEndian(p);
    case 4 => SettingsContents(h, p);
    case 5 => PushPromiseFaults(h, p);
    case 7 =>
      ReadAt(p, 0);
      ReadAt(p, 4);
      assert p[0..4] == p[..4];
    case 8 => MaskedRead(p);
    case _ =>
  }

  lemma {:induction false} SettingsContents(h: Header, p: seq<byte>)
    requires h.ftype == 4 && ParseSettings(h, p).Ok?
    ensures var b := ParseSettings(h, p).value;
            && |p| % 6 == 0 && b.GotSettings? && |b.settings| == |p| / 6
            && forall i :: 0 <= i < |p| / 6 ==> b.settings[i] == Setting(At16(p, 6 * i), At32(p, 6 * i + 2))
  {
    hide EachSetting, At32, At16;
    if p == [] {
      SettingsReadBackNone();
    } else {
      SettingsRead(p, 0);
    }
    forall i | 0 <= i < |p| / 6
      ensures EachSetting(p)[i] == Setting(At16(p, 6 * i), At32(p, 6 * i + 2))
    {
      SettingsRead(p, i);
    }
  }
}
