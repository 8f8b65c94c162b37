/** HTTP/2 frames on the wire (bfe_http2/frame.go): what the Framer's Write methods put into a
    frame, what ReadFrame and the parse functions get out of it. */
module FrameCodec {
  import opened Basics

  type uint16 = x: int | 0 <= x < 0x1_0000
  type uint32 = x: int | 0 <= x < 0x1_0000_0000

  const HIGH_BIT: int := 0x8000_0000
  const MAX_FRAME: int := 0x100_0000

  datatype Setting = Setting(id: uint16, val: uint32)

  datatype Dependency = Dependency(stream: uint32, exclusive: bool, weight: byte)

  const NO_DEPENDENCY: Dependency := Dependency(0, false, 0)

  /** A frame as a caller asks a Write method for it. */
  datatype Frame =
    | Data(stream: uint32, endStream: bool, data: seq<byte>, pad: Option<seq<byte>>)
    | Headers(stream: uint32, endStream: bool, endHeaders: bool, padLength: byte, priority: Dependency,
              block: seq<byte>)
    | Priority(stream: uint32, priority: Dependency)
    | RSTStream(stream: uint32, code: uint32)
    | Settings(settings: seq<Setting>)
    | SettingsAck
    | PushPromise(stream: uint32, promise: uint32, endHeaders: bool, padLength: byte, block: seq<byte>)
    | Ping(ack: bool, opaqueData: seq<byte>)
    | GoAway(last: uint32, code: uint32, debug: seq<byte>)
    | WindowUpdate(stream: uint32, increment: uint32)
    | Continuation(stream: uint32, endHeaders: bool, block: seq<byte>)
    | Raw(ftype: byte, flags: byte, stream: uint32, payload: seq<byte>)

  // ------------------------------------------------------------------------------ bytes and bits

  /** Big-endian digits, most significant first. */
  function U16(v: uint16): (r: seq<byte>) { [v / 256, v % 256] }

  function U24(v: int): (r: seq<byte>)
    requires 0 <= v < MAX_FRAME
    ensures |r| == 3
  {
    [v / 256 / 256, v / 256 % 256, v % 256]
  }

  function U32(v: uint32): (r: seq<byte>)
    ensures |r| == 4
  {
    U24(v / 256) + [v % 256]
  }

  function FromU16(p: seq<byte>): uint16
    requires |p| == 2
  {
    Shl(p[0], p[1])
  }

  function FromU24(p: seq<byte>): (v: int)
    requires |p| == 3
    ensures 0 <= v < MAX_FRAME
  {
    Shl(Shl(p[0], p[1]), p[2])
  }

  function FromU32(p: seq<byte>): uint32
    requires |p| == 4
  {
    Shl(FromU24(p[..3]), p[3])
  }

  function Shl(hi: int, lo: byte): int { hi * 256 + lo }

  lemma DigitsRoundTrip(v: uint32)
    ensures FromU32(U32(v)) == v
    ensures v < MAX_FRAME ==> FromU24(U24(v)) == v
    ensures v < 0x1_0000 ==> FromU16(U16(v)) == v
  {
    assert U32(v)[..3] == U24(v / 256);
  }

  function Bit(b: bool, mask: byte): byte { if b then mask else 0 }

  predicate Has(flags: byte, mask: byte)
    requires mask > 0
  {
    flags / mask % 2 == 1
  }

  function Zeros(n: nat): (r: seq<byte>)
    ensures |r| == n
  {
    seq(n, _ => 0)
  }

  predicate ValidStreamID(id: uint32) { 0 < id < HIGH_BIT }

  function Masked(v: uint32): uint32 { v % HIGH_BIT }

  // ---------------------------------------------------------------------------------- writing

  function TypeOf(f: Frame): byte {
    match f
    case Data(_, _, _, _) => 0
    case Headers(_, _, _, _, _, _) => 1
    case Priority(_, _) => 2
    case RSTStream(_, _) => 3
    case Settings(_) => 4
    case SettingsAck => 4
    case PushPromise(_, _, _, _, _) => 5
    case Ping(_, _) => 6
    case GoAway(_, _, _) => 7
    case WindowUpdate(_, _) => 8
    case Continuation(_, _, _) => 9
    case Raw(t, _, _, _) => t
  }

  function FlagsOf(f: Frame): byte {
    match f
    case Data(_, end, _, pad) => Bit(end, 1) + Bit(pad.Some?, 8)
    case Headers(_, end, endH, pad, prio, _) =>
      Bit(end, 1) + Bit(endH, 4) + Bit(pad != 0, 8) + Bit(prio != NO_DEPENDENCY, 0x20)
    case SettingsAck => 1
    case PushPromise(_, _, endH, pad, _) => Bit(endH, 4) + Bit(pad != 0, 8)
    case Ping(ack, _) => Bit(ack, 1)
    case Continuation(_, endH, _) => Bit(endH, 4)
    case Raw(_, flags, _, _) => flags
    case _ => 0
  }

  function StreamOf(f: Frame): uint32 {
    match f
    case Settings(_) => 0
    case SettingsAck => 0
    case Ping(_, _) => 0
    case GoAway(_, _, _) => 0
    case _ => f.stream
  }

  function DependencyBytes(d: Dependency): seq<byte> {
    U32(if d.exclusive && d.stream < HIGH_BIT then d.stream + HIGH_BIT else d.stream) + [d.weight]
  }

  function SettingBytes(ss: seq<Setting>): (r: seq<byte>)
    ensures |r| == 6 * |ss|
  {
    if ss == [] then [] else U16(ss[0].id) + U32(ss[0].val) + SettingBytes(ss[1..])
  }

  function PayloadOf(f: Frame): seq<byte> {
    match f
    case Data(_, _, data, pad) =>
      if pad.None? then data else [|pad.value| % 256] + data + pad.value
    case Headers(_, _, _, pad, prio, block) =>
      (if pad != 0 then [pad] else [])
      + (if prio != NO_DEPENDENCY then DependencyBytes(prio) else [])
      + block + Zeros(pad)
    case Priority(_, prio) => DependencyBytes(prio)
    case RSTStream(_, code) => U32(code)
    case Settings(ss) => SettingBytes(ss)
    case SettingsAck => []
    case PushPromise(_, promise, _, pad, block) =>
      (if pad != 0 then [pad] else []) + U32(promise) + block + Zeros(pad)
    case Ping(_, data) => data
    case GoAway(last, code, debug) => U32(Masked(last)) + U32(code) + debug
    case WindowUpdate(_, inc) => U32(inc)
    case Continuation(_, _, block) => block
    case Raw(_, _, _, payload) => payload
  }

  /** When a Write method sends the frame rather than returning an error. The eight octets of PING
      are an array in the source. */
  predicate Writable(f: Frame) {
    && |PayloadOf(f)| < MAX_FRAME
    && match f
       case Data(id, _, _, pad) => ValidStreamID(id) && (pad.Some? ==> |pad.value| <= 255)
       case Headers(id, _, _, _, prio, _) =>
         ValidStreamID(id) && (prio != NO_DEPENDENCY ==> ValidStreamID(prio.stream))
       case Priority(id, _) => ValidStreamID(id)
       case RSTStream(id, _) => ValidStreamID(id)
       case PushPromise(id, promise, _, _, _) => ValidStreamID(id) && ValidStreamID(promise)
       case Ping(_, data) => |data| == 8
       case WindowUpdate(_, inc) => 1 <= inc < HIGH_BIT
       case Continuation(id, _, _) => ValidStreamID(id)
       case _ => true
  }

  function HeaderBytes(length: nat, ftype: byte, flags: byte, stream: uint32): (r: seq<byte>)
    requires length < MAX_FRAME
    ensures |r| == 9
  {
    U24(length) + [ftype, flags] + U32(stream)
  }

  function Encode(f: Frame): (r: seq<byte>)
    requires Writable(f)
  {
    HeaderBytes(|PayloadOf(f)|, TypeOf(f), FlagsOf(f), StreamOf(f)) + PayloadOf(f)
  }

  // ---------------------------------------------------------------------------------- reading

  datatype Header = Header(length: nat, ftype: byte, flags: byte, stream: uint32)

  /** A frame as ReadFrame delivers it. */
  datatype Body =
    | GotData(data: seq<byte>)
    | GotHeaders(priority: Dependency, block: seq<byte>)
    | GotPriority(priority: Dependency)
    | GotReset(code: uint32)
    | GotSettings(settings: seq<Setting>)
    | GotPushPromise(promise: uint32, block: seq<byte>)
    | GotPing(opaqueData: seq<byte>)
    | GotGoAway(last: uint32, code: uint32, debug: seq<byte>)
    | GotWindowUpdate(increment: uint32)
    | GotContinuation(block: seq<byte>)
    | GotUnknown(payload: seq<byte>)

  /** HeaderLimit: the header list or the URI is too long, and the connection is closed at once. */
  datatype ReadError =
    | UnexpectedEOF | FrameTooLarge | HeaderLimit | ConnError(code: nat) | StreamError(id: uint32, code: nat)

  datatype Result<T> = Ok(value: T) | Err(error: ReadError)

  function ReadHeader(p: seq<byte>): (h: Header)
    requires |p| == 9
  {
    Header(FromU24(p[..3]), p[3], p[4], Masked(FromU32(p[5..9])))
  }

  function ParseData(h: Header, p: seq<byte>): Result<Body> {
    if h.stream == 0 then Err(ConnError(1))
    else if Has(h.flags, 8) then
      if p == [] then Err(UnexpectedEOF)
      else if p[0] > |p| - 1 then Err(ConnError(1))
      else Ok(GotData(p[1..|p| - p[0]]))
    else Ok(GotData(p))
  }

  function ReadDependency(p: seq<byte>): Dependency
    requires |p| == 5
  {
    var v := FromU32(p[..4]);
    Dependency(Masked(v), Masked(v) != v, p[4])
  }

  /** Padding length and what follows it. */
  function StripPad(padded: bool, p: seq<byte>): Result<(nat, seq<byte>)> {
    if !padded then Ok((0, p)) else if p == [] then Err(UnexpectedEOF) else Ok((p[0], p[1..]))
  }

  function ParseHeaders(h: Header, p: seq<byte>): Result<Body> {
    if h.stream == 0 then Err(ConnError(1)) else
      match StripPad(Has(h.flags, 8), p)
      case Err(e) => Err(e)
      case Ok((pad, q)) =>
        if Has(h.flags, 0x20) && |q| < 5 then Err(UnexpectedEOF)
        else
          var prio := if Has(h.flags, 0x20) then ReadDependency(q[..5]) else NO_DEPENDENCY;
          var rest := if Has(h.flags, 0x20) then q[5..] else q;
          if |rest| - pad <= 0 then Err(StreamError(h.stream, 1))
          else Ok(GotHeaders(prio, rest[..|rest| - pad]))
  }

  /** SettingsFrame.Value: the first setting with this id. */
  function SettingValue(p: seq<byte>, id: uint16): Option<uint32>
    requires |p| % 6 == 0
  {
    if p == [] then None
    else if FromU16(p[..2]) == id then Some(FromU32(p[2..6]))
    else SettingValue(p[6..], id)
  }

  /** The settings ForeachSetting visits. */
  function EachSetting(p: seq<byte>): seq<Setting>
    requires |p| % 6 == 0
  {
    if p == [] then [] else [Setting(FromU16(p[..2]), FromU32(p[2..6]))] + EachSetting(p[6..])
  }

  function ParseSettings(h: Header, p: seq<byte>): Result<Body> {
    if Has(h.flags, 1) && h.length > 0 then Err(ConnError(6))
    else if h.stream != 0 then Err(ConnError(1))
    else if |p| % 6 != 0 then Err(ConnError(6))
    else
      var v := SettingValue(p, 4);
      if v.Some? && v.value >= HIGH_BIT then Err(ConnError(3)) else Ok(GotSettings(EachSetting(p)))
  }

  function ParsePushPromise(h: Header, p: seq<byte>): Result<Body> {
    if h.stream == 0 then Err(ConnError(1)) else
      match StripPad(Has(h.flags, 8), p)
      case Err(e) => Err(e)
      case Ok((pad, q)) =>
        if |q| < 4 then Err(UnexpectedEOF)
        else if pad > |q| - 4 then Err(ConnError(1))
        else Ok(GotPushPromise(Masked(FromU32(q[..4])), q[4..|q| - pad]))
  }

  function Parse(h: Header, p: seq<byte>): Result<Body> {
    match h.ftype
    case 0 => ParseData(h, p)
    case 1 => ParseHeaders(h, p)
    case 2 =>
      if h.stream == 0 then Err(ConnError(1))
      else if |p| != 5 then Err(ConnError(6))
      else Ok(GotPriority(ReadDependency(p)))
    case 3 =>
      if |p| != 4 then Err(ConnError(6)) else if h.stream == 0 then Err(ConnError(1)) else Ok(GotReset(FromU32(p)))
    case 4 => ParseSettings(h, p)
    case 5 => ParsePushPromise(h, p)
    case 6 =>
      if |p| != 8 then Err(ConnError(6)) else if h.stream != 0 then Err(ConnError(1)) else Ok(GotPing(p))
    case 7 =>
      if h.stream != 0 then Err(ConnError(1)) else if |p| < 8 then Err(ConnError(6))
      else Ok(GotGoAway(Masked(FromU32(p[..4])), FromU32(p[4..8]), p[8..]))
    case 8 =>
      if |p| != 4 then Err(ConnError(6))
      else if Masked(FromU32(p)) == 0 then Err(if h.stream == 0 then ConnError(1) else StreamError(h.stream, 1))
      else Ok(GotWindowUpdate(Masked(FromU32(p))))
    case 9 => if h.stream == 0 then Err(ConnError(1)) else Ok(GotContinuation(p))
    case _ => Ok(GotUnknown(p))
  }

  datatype Got = Got(header: Header, body: Body)

  /** ReadFrame up to checkFrameOrder, with the bytes left over. */
  function ReadOne(input: seq<byte>, maxReadSize: nat): Result<(Got, seq<byte>)> {
    if |input| < 9 then Err(UnexpectedEOF) else
      var h := ReadHeader(input[..9]);
      if h.length > maxReadSize then Err(FrameTooLarge)
      else if |input| < 9 + h.length then Err(UnexpectedEOF)
      else
        match Parse(h, input[9..9 + h.length])
        case Err(e) => Err(e)
        case Ok(b) => Ok((Got(h, b), input[9 + h.length..]))
  }

  // ------------------------------------------------------------------------------- round trip

  /** What a reader should see of a written frame: everything but the padding. */
  function BodyOf(f: Frame): Body {
    match f
    case Data(_, _, data, _) => GotData(data)
    case Headers(_, _, _, _, prio, block) => GotHeaders(prio, block)
    case Priority(_, prio) => GotPriority(prio)
    case RSTStream(_, code) => GotReset(code)
    case Settings(ss) => GotSettings(ss)
    case SettingsAck => GotSettings([])
    case PushPromise(_, promise, _, _, block) => GotPushPromise(promise, block)
    case Ping(_, data) => GotPing(data)
    case GoAway(last, code, debug) => GotGoAway(Masked(last), code, debug)
    case WindowUpdate(_, inc) => GotWindowUpdate(inc)
    case Continuation(_, _, block) => GotContinuation(block)
    case Raw(_, _, _, payload) => GotUnknown(payload)
  }

  function Expected(f: Frame): Got {
    Got(Header(|PayloadOf(f)|, TypeOf(f), FlagsOf(f), StreamOf(f)), BodyOf(f))
  }

  function FirstValue(ss: seq<Setting>, id: uint16): Option<uint32> {
    if ss == [] then None else if ss[0].id == id then Some(ss[0].val) else FirstValue(ss[1..], id)
  }

  /** The frames the Write methods let through although no reader accepts or understands them as
      they were meant: a HEADERS frame without a fragment, an initial window size over 2^31-1,
      a reserved bit set in a stream id, a raw frame under a registered type. */
  predicate Readable(f: Frame) {
    match f
    case Headers(_, _, _, _, _, block) => block != []
    case Priority(_, prio) => prio.stream < HIGH_BIT
    case Settings(ss) => FirstValue(ss, 4).Some? ==> FirstValue(ss, 4).value < HIGH_BIT
    case WindowUpdate(id, _) => id < HIGH_BIT
    case Raw(t, _, id, _) => t >= 10 && id < HIGH_BIT
    case _ => true
  }

  lemma {:induction false} SettingsReadBack(ss: seq<Setting>)
    ensures EachSetting(SettingBytes(ss)) == ss
    ensures SettingValue(SettingBytes(ss), 4) == FirstValue(ss, 4)
  {
    if ss != [] {
      var p := SettingBytes(ss);
      DigitsRoundTrip(ss[0].id);
      DigitsRoundTrip(ss[0].val);
      assert p[..2] == U16(ss[0].id) && p[2..6] == U32(ss[0].val) && p[6..] == SettingBytes(ss[1..]);
      SettingsReadBack(ss[1..]);
    }
  }

  lemma {:induction false} SettingsReadBackNone()
    ensures EachSetting([]) == [] && SettingValue([], 4) == None
  {
  }

  lemma {:induction false} DependencyReadsBack(d: Dependency)
    ensures |DependencyBytes(d)| == 5
    ensures ReadDependency(DependencyBytes(d)) == d <==> d.stream < HIGH_BIT
  {
    hide U32, FromU32, Masked;
    var v := if d.exclusive && d.stream < HIGH_BIT then d.stream + HIGH_BIT else d.stream;
    DigitsRoundTrip(v);
    assert DependencyBytes(d)[..4] == U32(v);
    MaskedTwice(d.stream);
    if d.stream < HIGH_BIT { MaskedHigh(d.stream); }
  }

  lemma {:induction false} MaskedHigh(v: uint32)
    requires v < HIGH_BIT
    ensures Masked(v + HIGH_BIT) == v
  {
  }

  lemma {:induction false} PadStrips(pad: byte, q: seq<byte>)
    ensures StripPad(pad != 0, (if pad != 0 then [pad] else []) + q) == Ok((pad as nat, q))
  {
    if pad == 0 {
      assert [] + q == q;
    } else {
      assert ([pad] + q)[1..] == q;
    }
  }

  lemma {:induction false} MaskedTwice(v: uint32)
    ensures Masked(Masked(v)) == Masked(v) && (v < HIGH_BIT <==> Masked(v) == v)
  {
  }

  lemma {:induction false} DataReadsBack(f: Frame)
    requires f.Data? && Writable(f)
    ensures Parse(Expected(f).header, PayloadOf(f)) == Ok(BodyOf(f))
  {
    var p := PayloadOf(f);
    if f.pad.Some? { assert p[1..|p| - p[0]] == f.data; }
  }

  lemma {:induction false} HeadersReadBack(f: Frame)
    requires f.Headers? && Writable(f)
    ensures Parse(Expected(f).header, PayloadOf(f)) == Ok(BodyOf(f)) <==> Readable(f)
  {
    hide DependencyBytes, ReadDependency, Zeros, StripPad, SettingBytes, FromU32, U32, Masked;
    var h, p := Expected(f).header, PayloadOf(f);
    var prio := if f.priority != NO_DEPENDENCY then DependencyBytes(f.priority) else [];
    var q := prio + f.block + Zeros(f.padLength);
    assert Has(h.flags, 8) <==> f.padLength != 0;
    assert Has(h.flags, 0x20) <==> f.priority != NO_DEPENDENCY;
    assert p == (if f.padLength != 0 then [f.padLength] else []) + q;
    PadStrips(f.padLength, q);
    DependencyReadsBack(f.priority);
    assert q[|prio|..] == f.block + Zeros(f.padLength);
    assert q[..|prio|] == prio;
  }

  lemma {:induction false} PushPromiseReadsBack(f: Frame)
    requires f.PushPromise? && Writable(f)
    ensures Parse(Expected(f).header, PayloadOf(f)) == Ok(BodyOf(f))
  {
    hide Zeros, StripPad, SettingBytes, FromU32, U32, Masked;
    MaskedTwice(f.promise);
    var h, p := Expected(f).header, PayloadOf(f);
    var q := U32(f.promise) + f.block + Zeros(f.padLength);
    assert Has(h.flags, 8) <==> f.padLength != 0;
    assert p == (if f.padLength != 0 then [f.padLength] else []) + q;
    PadStrips(f.padLength, q);
    DigitsRoundTrip(f.promise);
    assert q[..4] == U32(f.promise) && q[4..|q| - f.padLength] == f.block;
  }

  lemma {:induction false} GoAwayReadsBack(f: Frame)
    requires f.GoAway? && Writable(f)
    ensures Parse(Expected(f).header, PayloadOf(f)) == Ok(BodyOf(f))
  {
    hide FromU32, U32, Masked;
    MaskedTwice(f.last);
    var p := PayloadOf(f);
    DigitsRoundTrip(Masked(f.last));
    DigitsRoundTrip(f.code);
    assert p[..4] == U32(Masked(f.last)) && p[4..8] == U32(f.code) && p[8..] == f.debug;
  }

  /** The parse functions undo the Write methods, exactly for the readable frames. */
  lemma {:induction false} ParseReadsBackIff(f: Frame)
    requires Writable(f)
    ensures StreamOf(f) < HIGH_BIT ==> (Parse(Expected(f).header, PayloadOf(f)) == Ok(BodyOf(f)) <==> Readable(f))
  {
    hide FromU32, U32, U24, Masked, DependencyBytes, ReadDependency, StripPad, ParseHeaders, ParseData,
         ParsePushPromise, EachSetting, SettingBytes, SettingValue, FirstValue;
    match f
    case Data(_, _, _, _) => DataReadsBack(f);
    case Headers(_, _, _, _, _, _) => HeadersReadBack(f);
    case Priority(_, prio) => DependencyReadsBack(prio);
    case RSTStream(_, code) => DigitsRoundTrip(code);
    case Settings(ss) => SettingsReadBack(ss);
    case SettingsAck => SettingsReadBackNone();
    case PushPromise(_, _, _, _, _) => PushPromiseReadsBack(f);
    case Ping(_, _) =>
    case GoAway(_, _, _) => GoAwayReadsBack(f);
    case WindowUpdate(_, inc) =>
      DigitsRoundTrip(inc);
      MaskedTwice(inc);
    case Continuation(_, _, _) =>
    case Raw(t, _, _, _) => RawParsesAsRegistered(f);
  }

  lemma {:induction false} RawParsesAsRegistered(f: Frame)
    requires f.Raw?
    ensures Parse(Expected(f).header, f.payload) == Ok(GotUnknown(f.payload)) <==> f.ftype >= 10
  {
    var r := Parse(Expected(f).header, f.payload);
    assert f.ftype < 10 ==> r.Err? || !r.value.GotUnknown?;
  }

  lemma {:induction false} HeaderReadsBack(length: nat, ftype: byte, flags: byte, stream: uint32)
    requires length < MAX_FRAME
    ensures ReadHeader(HeaderBytes(length, ftype, flags, stream)) == Header(length, ftype, flags, Masked(stream))
  {
    var p := HeaderBytes(length, ftype, flags, stream);
    DigitsRoundTrip(length);
    DigitsRoundTrip(stream);
    assert p[..3] == U24(length) && p[5..9] == U32(stream);
  }

  /** Every frame a Write method sends is read back as what was asked for, leaving the bytes after
      it unread, if and only if it is readable and within the reader's limit. */
  lemma {:induction false} FrameRoundTripIff(f: Frame, rest: seq<byte>, maxReadSize: nat)
    requires Writable(f)
    ensures ReadOne(Encode(f) + rest, maxReadSize) == Ok((Expected(f), rest))
            <==> Readable(f) && |PayloadOf(f)| <= maxReadSize
    ensures |PayloadOf(f)| > maxReadSize ==> ReadOne(Encode(f) + rest, maxReadSize) == Err(FrameTooLarge)
  {
    hide Parse, Writable, PayloadOf, FlagsOf;
    var p := PayloadOf(f);
    assert |p| < MAX_FRAME by { PayloadBounded(f); }
    var hb := HeaderBytes(|p|, TypeOf(f), FlagsOf(f), StreamOf(f));
    HeaderReadsBack(|p|, TypeOf(f), FlagsOf(f), StreamOf(f));
    var input := Encode(f) + rest;
    assert input == hb + p + rest;
    assert input[..9] == hb && input[9..9 + |p|] == p && input[9 + |p|..] == rest;
    ParseReadsBackIff(f);
    MaskedTwice(StreamOf(f));
    if StreamOf(f) >= HIGH_BIT { StreamKept(f); }
  }

  lemma {:induction false} PayloadBounded(f: Frame)
    requires Writable(f)
    ensures |PayloadOf(f)| < MAX_FRAME
  {
  }

  lemma {:induction false} StreamKept(f: Frame)
    requires Writable(f) && StreamOf(f) >= HIGH_BIT
    ensures !Readable(f)
  {
  }
}
