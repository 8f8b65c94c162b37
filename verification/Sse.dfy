/** Rewriting error events in a server-sent event stream while it arrives
    (bfe_server/reverseproxy_ai_error.go). */
module Sse {
  import opened Basics
  import opened BufReader

  // ------------------------------------------------------------------------------- separators

  predicate CrlfBlank(b: seq<byte>, i: nat) {
    i + 3 < |b| && b[i] == CR && b[i + 1] == LF && b[i + 2] == CR && b[i + 3] == LF
  }

  predicate LfBlank(b: seq<byte>, i: nat) { i + 1 < |b| && b[i] == LF && b[i + 1] == LF }

  /** A blank-line separator starts at i; its length. */
  function SepAt(b: seq<byte>, i: nat): nat { if CrlfBlank(b, i) then 4 else if LfBlank(b, i) then 2 else 0 }

  /** splitSSEBlock from position i: where the first separator starts, and its length. */
  function SplitFrom(b: seq<byte>, i: nat): (r: Option<(nat, nat)>)
    ensures r.Some? ==> i <= r.value.0 && r.value.0 + r.value.1 <= |b| && r.value.1 == SepAt(b, r.value.0) > 0
    ensures r.Some? ==> forall k :: i <= k < r.value.0 ==> SepAt(b, k) == 0
    ensures r.None? ==> forall k :: i <= k < |b| ==> SepAt(b, k) == 0
    decreases |b| - i
  {
    if i >= |b| then None
    else if SepAt(b, i) > 0 then Some((i, SepAt(b, i)))
    else SplitFrom(b, i + 1)
  }

  function Split(b: seq<byte>): Option<(nat, nat)> { SplitFrom(b, 0) }

  method SplitSSEBlock(b: seq<byte>) returns (r: Option<(nat, nat)>)
    ensures r == Split(b)
  {
    for i := 0 to |b|
      invariant SplitFrom(b, i) == Split(b)
    {
      if b[i] == CR && i + 3 < |b| && b[i + 1] == LF && b[i + 2] == CR && b[i + 3] == LF {
        return Some((i, 4));
      }
      if b[i] == LF && i + 1 < |b| && b[i + 1] == LF {
        return Some((i, 2));
      }
    }
    return None;
  }

  lemma {:induction false} SplitIs(b: seq<byte>, i: nat, n: nat, from: nat)
    requires from <= i && i + n <= |b| && n == SepAt(b, i) > 0
    requires forall k :: from <= k < i ==> SepAt(b, k) == 0
    ensures SplitFrom(b, from) == Some((i, n))
    decreases i - from
  {
    if from < i { SplitIs(b, i, n, from + 1); }
  }

  /** The first separator of a prefix of the stream is the first separator of the whole stream: one
      that is cut short by the end of the prefix cannot come before it. */
  lemma {:induction false} SplitStable(b: seq<byte>, more: seq<byte>)
    requires Split(b).Some?
    ensures Split(b + more) == Split(b)
  {
    var (i, n) := Split(b).value;
    forall k | 0 <= k < i
      ensures SepAt(b + more, k) == 0
    {
      assert SepAt(b, k) == 0;
    }
    SplitIs(b + more, i, n, 0);
  }

  // ------------------------------------------------------------------------------------ events

  /** The protocol adapter: the unified error text for an event that reports an error, and whether
      an event ends the stream. */
  datatype Adapter = Adapter(rewrite: seq<byte> -> Option<seq<byte>>, terminal: seq<byte> -> bool)

  const DATA: seq<byte> := [100, 97, 116, 97, 58]
  const SPACE: byte := 32
  const COLON: byte := 58

  function Eol(sep: nat): seq<byte> { if sep == 4 then [CR, LF] else [LF] }

  /** strings.Split */
  function Lines(s: seq<byte>, eol: seq<byte>): (r: seq<seq<byte>>)
    requires eol != []
    ensures r != []
    decreases |s|
  {
    LinesFrom(s, eol, 0)
  }

  function LinesFrom(s: seq<byte>, eol: seq<byte>, i: nat): (r: seq<seq<byte>>)
    requires eol != [] && i <= |s|
    ensures r != []
    decreases |s|, |s| - i
  {
    if i + |eol| > |s| then [s]
    else if s[i..i + |eol|] == eol then [s[..i]] + LinesFrom(s[i + |eol|..], eol, 0)
    else LinesFrom(s, eol, i + 1)
  }

  /** strings.Join */
  function Join(parts: seq<seq<byte>>, glue: seq<byte>): seq<byte> {
    if parts == [] then []
    else if |parts| == 1 then parts[0]
    else parts[0] + glue + Join(parts[1..], glue)
  }

  predicate Starts(s: seq<byte>, w: seq<byte>, i: nat) { i + |w| <= |s| && s[i..i + |w|] == w }

  ghost predicate Occurs(s: seq<byte>, w: seq<byte>) { exists i :: Starts(s, w, i) }

  /** The lines are what lies between the line endings: joined by them they give the text back, and none
      contains one. */
  lemma {:induction false} LinesJoin(s: seq<byte>, eol: seq<byte>)
    requires eol != []
    ensures Join(Lines(s, eol), eol) == s
    ensures forall i :: 0 <= i < |Lines(s, eol)| ==> !Occurs(Lines(s, eol)[i], eol)
  {
    LinesFromJoin(s, eol, 0);
  }

  lemma {:induction false} LinesFromJoin(s: seq<byte>, eol: seq<byte>, i: nat)
    requires eol != [] && i <= |s|
    requires forall j :: 0 <= j < i ==> !Starts(s, eol, j)
    ensures Join(LinesFrom(s, eol, i), eol) == s
    ensures forall k :: 0 <= k < |LinesFrom(s, eol, i)| ==> !Occurs(LinesFrom(s, eol, i)[k], eol)
    decreases |s|, |s| - i
  {
    if i + |eol| > |s| {
      assert LinesFrom(s, eol, i) == [s];
    } else if s[i..i + |eol|] == eol {
      var rest := s[i + |eol|..];
      LinesFromJoin(rest, eol, 0);
      var tail := LinesFrom(rest, eol, 0);
      assert LinesFrom(s, eol, i) == [s[..i]] + tail;
      assert ([s[..i]] + tail)[1..] == tail;
      assert s == s[..i] + eol + rest;
      if Occurs(s[..i], eol) {
        var j: nat :| Starts(s[..i], eol, j);
        assert Starts(s, eol, j);
      }
    } else {
      LinesFromJoin(s, eol, i + 1);
    }
  }

  function DataOf(line: seq<byte>): seq<byte>
    requires DATA <= line
  {
    var d := line[|DATA|..];
    if d != [] && d[0] == SPACE then d[1..] else d
  }

  /** What the data lines carry, in order. */
  function Payloads(lines: seq<seq<byte>>): seq<seq<byte>> {
    if lines == [] then []
    else
      var last := lines[|lines| - 1];
      Payloads(lines[..|lines| - 1]) + (if DATA <= last then [DataOf(last)] else [])
  }

  /** The other lines, each with its line ending. */
  function OtherLines(lines: seq<seq<byte>>, eol: seq<byte>): seq<byte> {
    if lines == [] then []
    else
      var last := lines[|lines| - 1];
      OtherLines(lines[..|lines| - 1], eol) + (if DATA <= last then [] else last + eol)
  }

  datatype Verdict = Verdict(out: seq<byte>, terminal: bool, hit: bool)

  /** What an event becomes: one that reports no error is passed on byte for byte. */
  function Transformed(block: seq<byte>, sep: seq<byte>, a: Adapter): (v: Verdict)
    ensures !v.hit ==> v.out == block + sep
  {
    var eol := Eol(|sep|);
    var lines := Lines(block, eol);
    var data := Join(Payloads(lines), [LF]);
    match a.rewrite(data)
    case None => Verdict(block + sep, a.terminal(data), false)
    case Some(unified) => Verdict(OtherLines(lines, eol) + DATA + [SPACE] + unified + eol + sep, false, true)
  }

  /** processBlock: one loop collects the data, another one copies the other lines. */
  method ProcessBlock(block: seq<byte>, sep: seq<byte>, a: Adapter) returns (v: Verdict)
    ensures v == Transformed(block, sep, a)
  {
    hide Join, LinesFrom;
    var eol := if |sep| == 4 then [CR, LF] else [LF];
    var lines := Lines(block, eol);
    var dataLines: seq<seq<byte>> := [];
    for i := 0 to |lines|
      invariant dataLines == Payloads(lines[..i])
    {
      var ln := lines[i];
      assert lines[..i + 1][..i] == lines[..i];
      if ln == [] || ln[0] == COLON {
        continue;
      }
      if DATA <= ln {
        dataLines := dataLines + [DataOf(ln)];
      }
    }
    assert lines[..|lines|] == lines;
    var data := Join(dataLines, [LF]);
    var error := a.rewrite(data);
    if error.None? {
      return Verdict(block + sep, a.terminal(data), false);
    }
    var nb := [];
    for i := 0 to |lines|
      invariant nb == OtherLines(lines[..i], eol)
    {
      var ln := lines[i];
      assert lines[..i + 1][..i] == lines[..i];
      if DATA <= ln {
        continue;
      }
      nb := nb + ln + eol;
    }
    nb := nb + DATA + [SPACE] + error.value + eol + sep;
    return Verdict(nb, false, true);
  }

  predicate IsKind(line: seq<byte>, data: bool) { (DATA <= line) == data }

  /** idx lists, in order, the lines that are data lines (or those that are not). */
  ghost predicate Indexes(lines: seq<seq<byte>>, idx: seq<nat>, data: bool) {
    && (forall j :: 0 <= j < |idx| ==> idx[j] < |lines| && IsKind(lines[idx[j]], data))
    && (forall j, k :: 0 <= j < k < |idx| ==> idx[j] < idx[k])
    && (forall i :: 0 <= i < |lines| && IsKind(lines[i], data) ==> i in idx)
    && (lines == [] ==> idx == [])
  }

  /** Every line of the block is in exactly one of the two lists. */
  lemma {:induction false} IndexesExist(lines: seq<seq<byte>>) returns (data: seq<nat>, other: seq<nat>)
    ensures Indexes(lines, data, true) && Indexes(lines, other, false) && |data| + |other| == |lines|
  {
    data, other := [], [];
    if lines != [] {
      var n := |lines| - 1;
      data, other := IndexesExist(lines[..n]);
      if DATA <= lines[n] { data := data + [n]; } else { other := other + [n]; }
    }
  }

  lemma {:induction false} IndexesLast(lines: seq<seq<byte>>, idx: seq<nat>, data: bool)
    requires Indexes(lines, idx, data) && lines != [] && IsKind(lines[|lines| - 1], data)
    ensures var n := |lines| - 1;
            idx != [] && idx[|idx| - 1] == n && Indexes(lines[..n], idx[..|idx| - 1], data)
  {
    hide IsKind;
    var n := |lines| - 1;
    var j :| 0 <= j < |idx| && idx[j] == n;
    var last := |idx| - 1;
    assert idx[j] <= idx[last];
    forall i | 0 <= i < n && IsKind(lines[..n][i], data)
      ensures i in idx[..last]
    {
      assert lines[i] == lines[..n][i];
      var m :| 0 <= m < |idx| && idx[m] == i;
      assert idx[..last][m] == i;
    }
  }

  lemma {:induction false} IndexesSkip(lines: seq<seq<byte>>, idx: seq<nat>, data: bool)
    requires Indexes(lines, idx, data) && lines != [] && !IsKind(lines[|lines| - 1], data)
    ensures Indexes(lines[..|lines| - 1], idx, data)
  {
    hide IsKind;
    var n := |lines| - 1;
    forall j | 0 <= j < |idx|
      ensures idx[j] < n && IsKind(lines[..n][idx[j]], data)
    {
      assert idx[j] < |lines| && IsKind(lines[idx[j]], data);
    }
    forall i | 0 <= i < n && IsKind(lines[..n][i], data)
      ensures i in idx
    {
      assert lines[i] == lines[..n][i];
    }
    assert idx != [] ==> idx[0] < n;
  }

  ghost predicate PayloadAt(lines: seq<seq<byte>>, k: nat, payload: seq<byte>) {
    k < |lines| && DATA <= lines[k] && payload == DataOf(lines[k])
  }

  lemma {:induction false} PayloadsAt(lines: seq<seq<byte>>, idx: seq<nat>)
    requires Indexes(lines, idx, true)
    ensures |Payloads(lines)| == |idx| && forall j :: 0 <= j < |idx| ==> PayloadAt(lines, idx[j], Payloads(lines)[j])
  {
    hide Indexes, DataOf;
    if lines != [] {
      var n := |lines| - 1;
      if DATA <= lines[n] {
        IndexesLast(lines, idx, true);
        var head := idx[..|idx| - 1];
        PayloadsAt(lines[..n], head);
        assert forall j :: 0 <= j < |head| ==> PayloadAt(lines[..n], head[j], Payloads(lines[..n])[j]);
      } else {
        IndexesSkip(lines, idx, true);
        PayloadsAt(lines[..n], idx);
        assert forall j :: 0 <= j < |idx| ==> PayloadAt(lines[..n], idx[j], Payloads(lines[..n])[j]);
      }
    } else {
      NoIndexes(idx, true);
    }
  }

  lemma {:induction false} NoIndexes(idx: seq<nat>, data: bool)
    requires Indexes([], idx, data)
    ensures idx == []
  {
  }

  /** Each of these lines followed by the line ending. */
  function Ended(lines: seq<seq<byte>>, idx: seq<nat>, eol: seq<byte>): seq<byte>
    requires forall j :: 0 <= j < |idx| ==> idx[j] < |lines|
  {
    if idx == [] then [] else lines[idx[0]] + eol + Ended(lines, idx[1..], eol)
  }

  lemma {:induction false} EndedLast(lines: seq<seq<byte>>, idx: seq<nat>, k: nat, eol: seq<byte>)
    requires k < |lines| && forall j :: 0 <= j < |idx| ==> idx[j] < |lines|
    ensures Ended(lines, idx + [k], eol) == Ended(lines, idx, eol) + (lines[k] + eol)
  {
    if idx == [] {
      assert [k][1..] == [];
      assert lines[k] + eol + [] == lines[k] + eol;
    } else {
      assert (idx + [k])[1..] == idx[1..] + [k];
      EndedLast(lines, idx[1..], k, eol);
      assert lines[idx[0]] + eol + (Ended(lines, idx[1..], eol) + (lines[k] + eol))
          == lines[idx[0]] + eol + Ended(lines, idx[1..], eol) + (lines[k] + eol);
    }
  }

  lemma {:induction false} NoneEnded(lines: seq<seq<byte>>, eol: seq<byte>)
    ensures Ended(lines, [], eol) == []
  {
  }

  lemma {:induction false} EndedPrefix(lines: seq<seq<byte>>, n: nat, idx: seq<nat>, eol: seq<byte>)
    requires n <= |lines| && forall j :: 0 <= j < |idx| ==> idx[j] < n
    ensures Ended(lines[..n], idx, eol) == Ended(lines, idx, eol)
  {
    if idx != [] { EndedPrefix(lines, n, idx[1..], eol); }
  }

  lemma {:induction false} OthersAt(lines: seq<seq<byte>>, idx: seq<nat>, eol: seq<byte>)
    requires Indexes(lines, idx, false)
    ensures OtherLines(lines, eol) == Ended(lines, idx, eol)
  {
    hide Ended;
    if lines == [] {
      NoIndexes(idx, false);
      NoneEnded(lines, eol);
    } else {
      var n := |lines| - 1;
      if DATA <= lines[n] {
        IndexesSkip(lines, idx, false);
        OthersAt(lines[..n], idx, eol);
        EndedPrefix(lines, n, idx, eol);
      } else {
        IndexesLast(lines, idx, false);
        var head := idx[..|idx| - 1];
        OthersAt(lines[..n], head, eol);
        EndedPrefix(lines, n, head, eol);
        assert idx == head + [n];
        EndedLast(lines, head, n, eol);
      }
    }
  }

  /** What a data line carries: all after the colon but for one leading space. */
  predicate Carries(line: seq<byte>, payload: seq<byte>) {
    || line == [100, 97, 116, 97, 58, 32] + payload
    || (line == [100, 97, 116, 97, 58] + payload && (payload == [] || payload[0] != 32))
  }

  lemma {:induction false} CarriesData(line: seq<byte>, payload: seq<byte>)
    requires DATA <= line && Carries(line, payload)
    ensures payload == DataOf(line)
  {
  }

  /** An event in full. Its lines are those of the block under its own line ending; the adapter sees the
      payloads of the data lines in order, joined by LF. Without an error the block passes and the
      adapter says whether it ends the stream. Otherwise every other line is kept, in order and with
      its ending, and one data line carries the unified error. */
  lemma {:induction false} EventRewritten(block: seq<byte>, sep: seq<byte>, a: Adapter, data: seq<nat>, other: seq<nat>,
                                          payloads: seq<seq<byte>>)
    requires var lines := Lines(block, Eol(|sep|));
             && Indexes(lines, data, true) && Indexes(lines, other, false) && |payloads| == |data|
             && forall j :: 0 <= j < |data| ==> data[j] < |lines| && Carries(lines[data[j]], payloads[j])
    ensures var eol := if |sep| == 4 then [CR, LF] else [LF];
            var lines := Lines(block, eol);
            var text := Join(payloads, [LF]);
            && Join(lines, eol) == block && (forall i :: 0 <= i < |lines| ==> !Occurs(lines[i], eol))
            && Transformed(block, sep, a) ==
                 match a.rewrite(text)
                 case None => Verdict(block + sep, a.terminal(text), false)
                 case Some(unified) =>
                   Verdict(Ended(lines, other, eol) + [100, 97, 116, 97, 58, 32] + unified + eol + sep, false, true)
  {
    hide Lines, Join;
    var eol := if |sep| == 4 then [CR, LF] else [LF];
    var lines := Lines(block, eol);
    LinesJoin(block, eol);
    PayloadsAt(lines, data);
    forall j | 0 <= j < |data|
      ensures payloads[j] == Payloads(lines)[j]
    {
      assert PayloadAt(lines, data[j], Payloads(lines)[j]);
      CarriesData(lines[data[j]], payloads[j]);
    }
    assert Payloads(lines) == payloads;
    OthersAt(lines, other, eol);
  }

  // ------------------------------------------------------------------------------- whole streams

  function Start(s: seq<byte>): Progress { Progress([], s, false, false) }

  /** Output so far, input not yet consumed, and the two flags. */
  datatype Progress = Progress(out: seq<byte>, raw: seq<byte>, sawTerm: bool, hit: bool)

  /** processBlocks on a whole byte string: every complete block in turn. */
  function Process(p: Progress, a: Adapter): (r: Progress)
    ensures Split(r.raw).None?
    decreases |p.raw|
  {
    match Split(p.raw)
    case None => p
    case Some((i, n)) =>
      var v := Transformed(p.raw[..i], p.raw[i..i + n], a);
      Process(Progress(p.out + v.out, p.raw[i + n..], p.sawTerm || v.terminal, p.hit || v.hit), a)
  }

  lemma {:induction false} ProcessStep(p: Progress, a: Adapter)
    ensures Split(p.raw).None? ==> Process(p, a) == p
    ensures Split(p.raw).Some? ==>
              var (i, n) := Split(p.raw).value;
              i + n <= |p.raw| && n > 0 &&
              var v := Transformed(p.raw[..i], p.raw[i..i + n], a);
              var next := Progress(p.out + v.out, p.raw[i + n..], p.sawTerm || v.terminal, p.hit || v.hit);
              Process(p, a) == Process(next, a)
  {
    hide Transformed, SplitFrom;
    if Split(p.raw).Some? { SplitBounds(p.raw); }
  }

  /** A stream that ended: the trailing partial block is passed on unchanged. */
  function Batch(s: seq<byte>, a: Adapter): Progress {
    var p := Process(Start(s), a);
    Progress(p.out + p.raw, [], p.sawTerm, p.hit)
  }

  /** An event with the blank line that ends it. */
  datatype Event = Event(text: seq<byte>, sep: seq<byte>) {
    ghost predicate Valid() { Split(text + sep) == Some((|text|, |sep|)) }
  }

  function Bytes(events: seq<Event>): seq<byte> {
    if events == [] then [] else events[0].text + events[0].sep + Bytes(events[1..])
  }

  function Output(events: seq<Event>, a: Adapter): seq<byte> {
    if events == [] then [] else Transformed(events[0].text, events[0].sep, a).out + Output(events[1..], a)
  }

  ghost predicate SomeTerminal(events: seq<Event>, a: Adapter) {
    exists i :: 0 <= i < |events| && Transformed(events[i].text, events[i].sep, a).terminal
  }

  ghost predicate SomeError(events: seq<Event>, a: Adapter) {
    exists i :: 0 <= i < |events| && Transformed(events[i].text, events[i].sep, a).hit
  }

  /** Every stream is a sequence of events and a rest without a blank line. */
  lemma {:induction false} EventsOf(s: seq<byte>) returns (events: seq<Event>, rest: seq<byte>)
    ensures s == Bytes(events) + rest && Split(rest).None? && forall i :: 0 <= i < |events| ==> events[i].Valid()
    decreases |s|
  {
    hide SplitFrom;
    events, rest := [], s;
    if Split(s).Some? {
      SplitBounds(s);
      var (i, n) := Split(s).value;
      var more;
      more, rest := EventsOf(s[i + n..]);
      var e := Event(s[..i], s[i..i + n]);
      events := [e] + more;
      assert events[1..] == more;
      FirstEvent(s, i, n);
      assert s == e.text + e.sep + s[i + n..];
    }
  }

  lemma {:induction false} FirstEvent(s: seq<byte>, i: nat, n: nat)
    requires Split(s) == Some((i, n)) && i + n <= |s|
    ensures Event(s[..i], s[i..i + n]).Valid()
  {
    var t := s[..i] + s[i..i + n];
    assert t == s[..i + n];
    forall k | 0 <= k < i
      ensures SepAt(t, k) == 0
    {
      assert SepAt(s, k) == 0;
    }
    SplitIs(t, i, n, 0);
  }

  /** The stream as a whole: the output is the events' outputs in order, the rest stays back, and the flags
      say whether some event ends the stream or reports an error. */
  lemma {:induction false} StreamInEvents(p: Progress, events: seq<Event>, rest: seq<byte>, a: Adapter)
    requires p.raw == Bytes(events) + rest && Split(rest).None? && forall i :: 0 <= i < |events| ==> events[i].Valid()
    ensures Process(p, a) == Progress(p.out + Output(events, a), rest, p.sawTerm || SomeTerminal(events, a),
                                      p.hit || SomeError(events, a))
    decreases |events|
  {
    hide Split, Transformed, Process;
    ProcessStep(p, a);
    if events == [] {
      assert p.raw == rest && p.out + [] == p.out;
    } else {
      var (e, more) := (events[0], events[1..]);
      var tail := Bytes(more) + rest;
      assert p.raw == e.text + e.sep + tail;
      SplitStable(e.text + e.sep, tail);
      var (i, n) := (|e.text|, |e.sep|);
      assert p.raw[..i] == e.text && p.raw[i..i + n] == e.sep && p.raw[i + n..] == tail;
      var v := Transformed(e.text, e.sep, a);
      StreamInEvents(Progress(p.out + v.out, tail, p.sawTerm || v.terminal, p.hit || v.hit), more, rest, a);
      Rejoin(p.out, v.out, Output(more, a));
      AnyOfRest(events, a);
    }
  }

  lemma {:induction false} AnyOfRest(events: seq<Event>, a: Adapter)
    requires events != []
    ensures var v := Transformed(events[0].text, events[0].sep, a);
            && (SomeTerminal(events, a) <==> v.terminal || SomeTerminal(events[1..], a))
            && (SomeError(events, a) <==> v.hit || SomeError(events[1..], a))
  {
    hide Transformed;
    assert forall i :: 0 <= i < |events| - 1 ==> events[1..][i] == events[i + 1];
    assert forall i :: 1 <= i < |events| ==> events[1..][i - 1] == events[i];
  }

  /** Processing can stop anywhere and go on when more bytes have come. */
  lemma {:induction false} ProcessMore(p: Progress, more: seq<byte>, a: Adapter)
    ensures var q := Process(p, a);
            Process(p.(raw := p.raw + more), a) == Process(q.(raw := q.raw + more), a)
    decreases |p.raw|
  {
    hide Transformed, Process, Split;
    ProcessStep(p, a);
    ProcessStep(p.(raw := p.raw + more), a);
    if Split(p.raw).Some? {
      SplitStable(p.raw, more);
      var (i, n) := Split(p.raw).value;
      var all := p.raw + more;
      assert all[..i] == p.raw[..i] && all[i..i + n] == p.raw[i..i + n] && all[i + n..] == p.raw[i + n..] + more;
      var v := Transformed(p.raw[..i], p.raw[i..i + n], a);
      ProcessMore(Progress(p.out + v.out, p.raw[i + n..], p.sawTerm || v.terminal, p.hit || v.hit), more, a);
    }
  }

  /** Every complete block leaves bytes behind. */
  lemma {:induction false} ProcessGrows(p: Progress, a: Adapter)
    ensures |p.out| <= |Process(p, a).out|
    ensures Process(p, a).out == p.out <==> Split(p.raw).None?
    decreases |p.raw|
  {
    hide Transformed, Process, Split;
    ProcessStep(p, a);
    if Split(p.raw).Some? {
      var (i, n) := Split(p.raw).value;
      var v := Transformed(p.raw[..i], p.raw[i..i + n], a);
      BlockNotEmpty(p.raw[..i], p.raw[i..i + n], a);
      ProcessGrows(Progress(p.out + v.out, p.raw[i + n..], p.sawTerm || v.terminal, p.hit || v.hit), a);
    }
  }

  lemma {:induction false} BlockNotEmpty(block: seq<byte>, sep: seq<byte>, a: Adapter)
    requires sep != []
    ensures Transformed(block, sep, a).out != []
  {
    hide Lines, Payloads, OtherLines;
  }

  lemma {:induction false} SplitBounds(b: seq<byte>)
    requires Split(b).Some?
    ensures Split(b).value.0 + Split(b).value.1 <= |b| && Split(b).value.1 > 0
  {
  }

  /** When no event is an error the stream passes through byte for byte. */
  lemma {:induction false} CleanStreamUnchanged(p: Progress, a: Adapter)
    requires !Process(p, a).hit
    ensures Process(p, a).out + Process(p, a).raw == p.out + p.raw
    decreases |p.raw|
  {
    hide Split, Transformed, Process;
    ProcessStep(p, a);
    if Split(p.raw).Some? {
      var (i, n) := Split(p.raw).value;
      var v := Transformed(p.raw[..i], p.raw[i..i + n], a);
      var q := Progress(p.out + v.out, p.raw[i + n..], p.sawTerm || v.terminal, p.hit || v.hit);
      HitStays(q, a);
      CleanStreamUnchanged(q, a);
      Rejoin(p.out, p.raw[..i] + p.raw[i..i + n], p.raw[i + n..]);
      assert p.raw[..i] + p.raw[i..i + n] + p.raw[i + n..] == p.raw;
    }
  }

  lemma {:induction false} HitStays(p: Progress, a: Adapter)
    ensures p.hit ==> Process(p, a).hit
    ensures p.sawTerm ==> Process(p, a).sawTerm
    decreases |p.raw|
  {
    hide Transformed, SplitFrom;
    if Split(p.raw).Some? {
      SplitBounds(p.raw);
      var (i, n) := Split(p.raw).value;
      var v := Transformed(p.raw[..i], p.raw[i..i + n], a);
      HitStays(Progress(p.out + v.out, p.raw[i + n..], p.sawTerm || v.terminal, p.hit || v.hit), a);
    }
  }

  // -------------------------------------------------------------------------------- the filter

  /** fill reads at most 32 KiB at a time. */
  const FILL: nat := 32768

  /** aiErrorStreamFilter. `read` is everything taken from the source, `produced` everything ever
      appended to pending. */
  class StreamFilter {
    const src: ByteSource
    const adapter: Adapter
    var raw: seq<byte>
    var pending: seq<byte>
    var sawTerm: bool
    var hit: bool
    var done: bool
    ghost var read: seq<byte>
    ghost var produced: seq<byte>
    ghost const stream: seq<byte>

    constructor (src: ByteSource, adapter: Adapter)
      ensures Valid() && this.src == src && this.adapter == adapter && stream == src.rest && !done && pending == []
    {
      this.src, this.adapter, this.stream := src, adapter, src.rest;
      raw, pending, sawTerm, hit, done := [], [], false, false, false;
      read, produced := [], [];
    }

    ghost function Now(): Progress
      reads this
    {
      Progress(produced, raw, sawTerm, hit)
    }

    /** What was produced is what one pass over the bytes read so far produces; and once the source
        reached EOF, what one pass over the whole stream does. */
    ghost predicate Valid()
      reads this, src
    {
      && read + src.rest == stream
      && (if done then read == stream && Now() == Batch(stream, adapter)
          else Now() == Process(Start(read), adapter))
    }

    /** processBlocks: the loop over complete blocks. */
    method ProcessBlocks() returns (out: seq<byte>)
      modifies this`raw, this`sawTerm, this`hit, this`produced
      ensures Now() == Process(old(Now()), adapter) && produced == old(produced) + out
    {
      hide Process, Transformed, Split;
      out := [];
      ghost var goal := Process(Now(), adapter);
      while true
        invariant Process(Now(), adapter) == goal && produced == old(produced) + out
        decreases |raw|
      {
        ProcessStep(Now(), adapter);
        var at := SplitSSEBlock(raw);
        if at.None? {
          return;
        }
        var (i, n) := at.value;
        var v := ProcessBlock(raw[..i], raw[i..i + n], adapter);
        Rejoin(old(produced), out, v.out);
        out := out + v.out;
        produced := produced + v.out;
        raw, sawTerm, hit := raw[i + n..], sawTerm || v.terminal, hit || v.hit;
      }
    }

    /** fill: one read of at most 32 KiB, all complete blocks, and at EOF the partial rest. */
    method Fill() returns (e: Option<Error>, ghost added: seq<byte>)
      requires Valid() && !done
      modifies this, src
      ensures Valid() && pending == old(pending) + added && produced == old(produced) + added
      ensures (done <==> e == Some(Source(0))) && (e.Some? ==> e == Some(src.fin))
      ensures e.None? ==> src.Measure() < old(src.Measure())
      ensures var (data, err) := old(src.Next(FILL));
              && e == err && data + src.rest == old(src.rest)
              && (e.None? ==> (added == [] <==> Split(old(raw) + data).None?))
    {
      hide Process, Split;
      var data;
      data, e := src.Read(FILL);
      ProcessMore(Start(read), data, adapter);
      Rejoin(read, data, src.rest);
      read := read + data;
      raw := raw + data;
      ProcessGrows(Now(), adapter);
      var out := ProcessBlocks();
      assert produced == old(produced) <==> out == [];
      added := out;
      pending := pending + out;
      if e == Some(Source(0)) {
        Rejoin(old(produced), out, raw);
        Rejoin(old(pending), out, raw);
        assert read == stream;
        added := added + raw;
        produced := produced + raw;
        pending := pending + raw;
        raw := [];
        done := true;
      }
    }

    /** Repeated fill until EOF: however the source cut the stream into reads, the bytes produced and
        the flags are those of one pass over the whole stream; without an error event the bytes are
        the stream itself. */
    method FillAll()
      requires Valid() && !done && pending == [] && produced == [] && src.fin == Source(0)
      modifies this, src
      ensures done && pending == Batch(stream, adapter).out
      ensures sawTerm == Batch(stream, adapter).sawTerm && hit == Batch(stream, adapter).hit
      ensures !hit ==> pending == stream
    {
      hide Process;
      while !done
        invariant Valid() && pending == produced
        decreases !done, src.Measure()
      {
        var _, _ := Fill();
      }
      if !hit { CleanStreamUnchanged(Start(stream), adapter); }
    }

    /** Read hands out pending bytes after at most one fill: what it delivers followed by what stays
        pending is what was pending followed by what the fill produced. It fails exactly when there
        is nothing to hand out. It reports EOF with the stream unfinished exactly when nothing is
        pending and the next read of the source, without an error, completes no block. */
    method Read(p: array<byte>) returns (n: nat, e: Option<Error>)
      requires Valid()
      modifies this, src, p
      ensures Valid() && n <= p.Length
      ensures old(produced) <= produced && p[..n] + pending == old(pending) + produced[|old(produced)|..]
      ensures e.None? <==> old(pending) != [] || produced != old(produced)
      ensures e.None? ==> n == Min(p.Length, |old(pending)| + |produced| - |old(produced)|)
      ensures e.Some? ==> n == 0 && (e == Some(Source(0)) || e == Some(src.fin))
      ensures old(pending) != [] || old(done) ==> produced == old(produced) && src.rest == old(src.rest)
      ensures old(done) ==> done
      ensures old(pending) == [] && !old(done) ==> old(src.Next(FILL)).0 + src.rest == old(src.rest)
      ensures (e == Some(Source(0)) && !done) <==>
                && old(pending) == [] && !old(done)
                && var (data, err) := old(src.Next(FILL)); err.None? && Split(old(raw) + data).None?
    {
      hide Process, Split;
      if |pending| == 0 {
        if done {
          assert p[..0] == [];
          return 0, Some(Source(0));
        }
        var f, added := Fill();
        assert produced[|old(produced)|..] == added;
        if |pending| == 0 {
          assert p[..0] == [];
          return 0, if f.Some? then f else Some(Source(0));
        }
      }
      n := HandOut(p);
      e := None;
    }

    /** copy, and the rest stays pending. */
    method HandOut(p: array<byte>) returns (n: nat)
      requires Valid()
      modifies this`pending, p
      ensures Valid() && n == Min(p.Length, |old(pending)|) && p[..n] + pending == old(pending)
    {
      hide Process, Split;
      n := Min(p.Length, |pending|);
      forall i | 0 <= i < n {
        p[i] := pending[i];
      }
      assert p[..n] == pending[..n];
      pending := pending[n..];
    }
  }

  /** An event of nine bytes, of which the first read brings three: Read says EOF, although nothing was
      delivered and six bytes are still to come. */
  method CutEventEndsEarly(a: Adapter) returns (n: nat, e: Option<Error>, left: nat)
    ensures n == 0 && e == Some(Source(0)) && left == 6
  {
    var event: seq<byte> := [100, 97, 116, 97, 58, 32, 97, LF, LF];
    var src := new ByteSource(event, [Plan(3, false)], 0);
    var filter := new StreamFilter(src, a);
    var p := new byte[16];
    assert src.Next(FILL) == (event[..3], None);
    NoBlankLine(event);
    n, e := filter.Read(p);
    left := |src.rest|;
  }

  lemma {:induction false} NoBlankLine(event: seq<byte>)
    requires |event| >= 3 && event[0] == 100 && event[1] == 97 && event[2] == 116
    ensures Split([] + event[..3]).None?
  {
  }
}
