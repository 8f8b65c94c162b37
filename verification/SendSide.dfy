/** The sending half of serverConn (bfe_http2/server.go): the scheduler tickled by
    scheduleFrameWrite/startFrameWrite, and the one-frame handshake with the writer goroutine. */
module SendSide {
  import opened Basics
  import opened WriteSched

  /** What startFrameWrite does with a frame of a given stream: write it, drop it because the
      stream was reset, or panic. */
  datatype Fate = Deliver | Drop | Refuse

  /** `writeCh`, `inWriter` and `wroteCh` are where a frame handed to the writer goroutine can be.
      `added`, `taken`, `wire` and `lost` are the whole history: frames queued, frames handed out by
      the scheduler, and of these the frames sent to the writer and those dropped. */
  datatype Out = Out(
    writingFrame: bool, needsFlush: bool,
    writeCh: seq<Msg>, inWriter: seq<Msg>, wroteCh: seq<Msg>,
    sched: Sched, win: Windows, controlFrames: int,
    needGoAway: bool, needAck: bool, inGoAway: bool, goAwayCode: nat,
    picks: seq<nat>,
    added: seq<Msg>, taken: seq<Taken>, wire: seq<Msg>, lost: seq<Msg>)

  /** The panics of serverConn. */
  datatype Panic =
    | WriteWhileWriting        // startFrameWrite with a frame in flight
    | SendOnClosedStream       // startFrameWrite for a stream that can send no more
    | CloseClosedStream        // closeStream twice
    | NilBody                  // a body pipe is used that was never made
    | NotWriting               // wroteFrame with no frame in flight
    | EndWithoutStream         // END_STREAM written outside any stream
    | TooManyWindowUpdates     // a receive window credited past 2^31-1

  datatype SendResult = Sent(out: Out) | SendPanic(why: Panic)

  ghost predicate ValidOut(o: Out, fates: map<nat, Fate>) {
    && ValidSched(o.sched) && WindowsCover(o.sched, o.win)
    && o.win.stream.Keys == fates.Keys
  }

  ghost predicate ErrorShutdown(o: Out) { o.inGoAway && o.goAwayCode != 0 }

  /** Hand m to the writer goroutine. */
  function Dispatch(o: Out, m: Msg): Out {
    o.(writingFrame := true, needsFlush := true, writeCh := o.writeCh + [m], wire := o.wire + [m])
  }

  /** Drop a frame of a stream that was reset, after its windows were debited. */
  function Discard(o: Out, m: Msg): Out { o.(lost := o.lost + [m]) }

  function AfterTake(o: Out): Out
    requires ValidSched(o.sched) && WindowsCover(o.sched, o.win)
    requires Take(o.sched, o.win, o.picks).Took?
  {
    var r := Take(o.sched, o.win, o.picks);
    o.(sched := r.sched, win := r.win, picks := r.picks, taken := o.taken + [r.taken],
       controlFrames := if r.taken.msg.IsControl() then o.controlFrames - 1 else o.controlFrames)
  }

  function StartFrameWrite(o: Out, m: Msg, fates: map<nat, Fate>, maxStreamID: nat): (r: SendResult)
    requires ValidOut(o, fates) && (m.stream.Some? ==> m.stream.value in fates)
    ensures r.Sent? ==> ValidOut(r.out, fates)
    ensures r.SendPanic? ==> r.why == if o.writingFrame then WriteWhileWriting else SendOnClosedStream
    decreases Work(o.sched), if m.stream.Some? then 2 else 0
  {
    if o.writingFrame then
      SendPanic(WriteWhileWriting)
    else if m.stream.Some? && fates[m.stream.value].Drop? then
      ScheduleFrameWrite(Discard(o, m), fates, maxStreamID)
    else if m.stream.Some? && fates[m.stream.value].Refuse? then
      SendPanic(SendOnClosedStream)
    else
      Sent(Dispatch(o, m))
  }

  function ScheduleFrameWrite(o: Out, fates: map<nat, Fate>, maxStreamID: nat): (r: SendResult)
    requires ValidOut(o, fates)
    ensures r.Sent? ==> ValidOut(r.out, fates)
    ensures r.SendPanic? ==> r.why == SendOnClosedStream
    decreases Work(o.sched), 1
  {
    if o.writingFrame then
      Sent(o)
    else if o.needGoAway then
      StartFrameWrite(o.(needGoAway := false), Msg(GoAway(maxStreamID, o.goAwayCode), None, false), fates, maxStreamID)
    else if o.needAck then
      StartFrameWrite(o.(needAck := false), Msg(SettingsAck, None, false), fates, maxStreamID)
    else if (!o.inGoAway || o.goAwayCode == 0) && Take(o.sched, o.win, o.picks).Took? then
      TakeShrinksWork(o.sched, o.win, o.picks);
      TakenFrameShape(o.sched, o.win, o.picks);
      StartFrameWrite(AfterTake(o), Take(o.sched, o.win, o.picks).taken.msg, fates, maxStreamID)
    else if o.needsFlush then
      match StartFrameWrite(o, Msg(Flush, None, false), fates, maxStreamID)
      case Sent(o') => Sent(o'.(needsFlush := false))
      case SendPanic(why) => SendPanic(why)
    else
      Sent(o)
  }

  /** writeFrame */
  function Enqueue(o: Out, m: Msg): Out
    requires ValidSched(o.sched)
  {
    o.(sched := Add(o.sched, m), added := o.added + [m],
       controlFrames := if m.IsControl() then o.controlFrames + 1 else o.controlFrames)
  }
}
