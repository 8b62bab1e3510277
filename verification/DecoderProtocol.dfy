/** The main thread and a decoder thread of fftools/ffmpeg_dec.c, talking over two thread
queues of one stream each: requests in, decoded frames and end-of-packet marks out.

Every step is one mutex-held queue operation or a local move. A queue operation that would
wait is simply not enabled; `ThreadQueueRuns` shows that such a waiter is woken in time.
What the decoder does with a packet is left open: it may produce any number of frames and
then succeed, fail or report its end.
 */
module DecoderProtocol {
  import opened ThreadQueueModel

  /** Items of queue_in; an empty packet asks for a flush. `tag` is the dec_packet call. */
  datatype Request = Packet(tag: nat) | Flush(tag: nat)

  /** Items of queue_out; a frame without data marks the end of a packet. */
  datatype Output = Frame(tag: nat) | Mark(tag: nat)

  datatype Kind = Data | Flushing | AtEof

  datatype Main = Outside | Sending(req: Request) | Receiving | StopSend | StopReceive | Joining | Joined

  datatype Dec = Waiting | Decoding(kind: Kind, tag: nat) | SendingFrame(kind: Kind, tag: nat)
               | Marking(kind: Kind, tag: nat) | CloseIn | CloseOut | Exited

  /** `produced`, `received` and `receivedIn` record the tags of the frames that entered and
      left queue_out, and the dec_packet calls that took them. */
  datatype State = State(
    qin: TQ<Request>, qout: TQ<Output>, main: Main, dec: Dec, call: nat,
    produced: seq<nat>, received: seq<nat>, receivedIn: seq<nat>)

  datatype Return = Ok | ReturnEof | Error

  datatype Step =
    | Call(flush: bool) | CallEof | Free
    | MainSend | MainReceive(processed: bool) | MainStopSend | MainStopReceive | MainJoin
    | DecReceive | DecFrame | DecSendFrame | DecReturn(ret: Return) | DecMark | DecCloseIn | DecCloseOut

  const IN_SIZE: nat := 1
  const OUT_SIZE: nat := 4

  function Init(): State {
    State(New(1, IN_SIZE), New(1, OUT_SIZE), Outside, Waiting, 0, [], [], [])
  }

  predicate Wf(s: State) {
    && Valid(s.qin) && |s.qin.finished| == 1 && s.qin.capacity == IN_SIZE
    && Valid(s.qout) && |s.qout.finished| == 1 && s.qout.capacity == OUT_SIZE
  }

  // ---- steps ----

  predicate MainBlocked(s: State)
    requires Wf(s)
  {
    || (s.main.Sending? && SendEnter(s.qin, 0, s.main.req).1.Blocked?)
    || (s.main.Receiving? && ReceiveLocked(s.qout).1.WouldBlock?)
    || (s.main.Joining? && !s.dec.Exited?)
  }

  predicate DecBlocked(s: State)
    requires Wf(s)
  {
    || (s.dec.Waiting? && ReceiveLocked(s.qin).1.WouldBlock?)
    || (s.dec.SendingFrame? && SendEnter(s.qout, 0, Frame(s.dec.tag)).1.Blocked?)
    || (s.dec.Marking? && SendEnter(s.qout, 0, Mark(s.dec.tag)).1.Blocked?)
  }

  predicate Enabled(s: State, a: Step)
    requires Wf(s)
  {
    match a
    case Call(_) => s.main.Outside?
    case CallEof => s.main.Outside?
    case Free => s.main.Outside?
    case MainSend => s.main.Sending? && !MainBlocked(s)
    case MainReceive(_) => s.main.Receiving? && !MainBlocked(s)
    case MainStopSend => s.main.StopSend?
    case MainStopReceive => s.main.StopReceive?
    case MainJoin => s.main.Joining? && !MainBlocked(s)
    case DecReceive => s.dec.Waiting? && !DecBlocked(s)
    case DecFrame => s.dec.Decoding?
    case DecSendFrame => s.dec.SendingFrame? && !DecBlocked(s)
    case DecReturn(_) => s.dec.Decoding?
    case DecMark => s.dec.Marking? && !DecBlocked(s)
    case DecCloseIn => s.dec.CloseIn?
    case DecCloseOut => s.dec.CloseOut?
  }

  /** decoder_thread after packet_decode: a flushed decoder is reset and goes on. */
  function AfterDecode(kind: Kind, tag: nat, ret: Return): Dec {
    match ret
    case Ok => Marking(kind, tag)
    case ReturnEof => if kind.Flushing? then Marking(kind, tag) else CloseIn
    case Error => CloseIn
  }

  function Apply(s: State, a: Step): State
    requires Wf(s) && Enabled(s, a)
  {
    match a
    case Call(flush) =>
      s.(main := Sending(if flush then Flush(s.call + 1) else Packet(s.call + 1)), call := s.call + 1)
    case CallEof => s.(qin := SendFinish(s.qin, 0), main := Receiving, call := s.call + 1)
    case Free => s.(main := StopSend)
    case MainSend =>
      var (q, r) := SendEnter(s.qin, 0, s.main.req);
      s.(qin := q, main := if r.Sent? then Receiving else StopSend)
    case MainReceive(processed) =>
      var (q, r) := ReceiveLocked(s.qout);
      (match r
       case Item(_, x) =>
         if x.Mark? then s.(qout := q, main := Outside)
         else s.(qout := q, main := if processed then Receiving else StopSend,
                 received := s.received + [x.tag], receivedIn := s.receivedIn + [s.call])
       case _ => s.(qout := q, main := StopSend))
    case MainStopSend => s.(qin := SendFinish(s.qin, 0), main := StopReceive)
    case MainStopReceive => s.(qout := ReceiveFinish(s.qout, 0), main := Joining)
    case MainJoin => s.(main := Joined)
    case DecReceive =>
      var (q, r) := ReceiveLocked(s.qin);
      s.(qin := q, dec := match r
                          case Item(_, x) => Decoding(if x.Flush? then Flushing else Data, x.tag)
                          case _ => Decoding(AtEof, s.call))
    case DecFrame => s.(dec := SendingFrame(s.dec.kind, s.dec.tag))
    case DecSendFrame =>
      var (q, r) := SendEnter(s.qout, 0, Frame(s.dec.tag));
      if r.Sent? then s.(qout := q, dec := Decoding(s.dec.kind, s.dec.tag), produced := s.produced + [s.dec.tag])
      else s.(qout := q, dec := AfterDecode(s.dec.kind, s.dec.tag, if r.RecvClosed? then ReturnEof else Error))
    case DecReturn(ret) => s.(dec := AfterDecode(s.dec.kind, s.dec.tag, ret))
    case DecMark =>
      var (q, r) := SendEnter(s.qout, 0, Mark(s.dec.tag));
      s.(qout := q, dec := if r.Sent? && !s.dec.kind.AtEof? then Waiting else CloseIn)
    case DecCloseIn => s.(qin := ReceiveFinish(s.qin, 0), dec := CloseOut)
    case DecCloseOut => s.(qout := SendFinish(s.qout, 0), dec := Exited)
  }

  // ---- the invariant ----

  function FrameTags(fifo: seq<Elem<Output>>): seq<nat> {
    if fifo == [] then []
    else (if fifo[0].item.Frame? then [fifo[0].item.tag] else []) + FrameTags(fifo[1..])
  }

  predicate AllFrames(fifo: seq<Elem<Output>>, tag: nat) {
    forall k :: 0 <= k < |fifo| ==> fifo[k].item == Frame(tag)
  }

  predicate MarkedFrames(fifo: seq<Elem<Output>>, tag: nat) {
    fifo != [] && fifo[|fifo| - 1].item == Mark(tag) && AllFrames(fifo[..|fifo| - 1], tag)
  }

  predicate Closing(d: Dec) {
    d.CloseIn? || d.CloseOut? || d.Exited?
  }

  predicate Busy(d: Dec) {
    d.Decoding? || d.SendingFrame? || d.Marking?
  }

  predicate Live(m: Main) {
    m.Outside? || m.Sending? || m.Receiving?
  }

  /** Between calls nothing is queued, and the decoder waits unless it was sent the end. */
  predicate Idle(s: State)
    requires Wf(s)
  {
    && s.qin.fifo == [] && s.qout.fifo == []
    && (if s.qin.finished[0].send then Closing(s.dec) else s.dec.Waiting? && !s.qin.finished[0].recv)
  }

  /** Within a call: the request is still queued, being decoded, or answered; or the decoder
      is on its way out. */
  predicate InCall(s: State)
    requires Wf(s)
  {
    || (s.dec.Waiting? && !s.qin.finished[0].recv && s.qout.fifo == []
        && (if s.qin.finished[0].send then s.qin.fifo == []
            else |s.qin.fifo| == 1 && s.qin.fifo[0].item.tag == s.call))
    || (Busy(s.dec) && s.dec.tag == s.call && s.qin.fifo == [] && AllFrames(s.qout.fifo, s.call)
        && (s.dec.kind.AtEof? <==> s.qin.finished[0].send)
        && (!s.dec.kind.AtEof? ==> !s.qin.finished[0].recv))
    || (s.qin.fifo == [] && MarkedFrames(s.qout.fifo, s.call)
        && (if s.qin.finished[0].send then Closing(s.dec) else s.dec.Waiting? && !s.qin.finished[0].recv))
    || (s.qin.fifo == [] && AllFrames(s.qout.fifo, s.call) && Closing(s.dec))
  }

  predicate Inv(s: State) {
    && Wf(s)
    && s.received == s.receivedIn
    && (s.dec.Exited? ==> s.qout.finished[0].send)
    && (Live(s.main) ==>
          && !s.qout.finished[0].recv
          && (s.qout.finished[0].send ==> s.dec.Exited?)
          && s.received + FrameTags(s.qout.fifo) == s.produced)
    && (s.main.Outside? || s.main.Sending? ==> Idle(s))
    && (s.main.Sending? ==> s.main.req.tag == s.call)
    && (s.main.Receiving? ==> InCall(s))
    && (s.main.StopReceive? || s.main.Joining? ==> s.qin.finished[0].send)
    && (s.main.Joining? ==> s.qout.finished[0].recv)
  }

  // ---- queues of one stream ----

  lemma OneStreamReceive<T>(q: TQ<T>)
    requires Valid(q) && |q.finished| == 1
    ensures var (q', r) := ReceiveLocked(q);
            && (!q.finished[0].recv && q.fifo != [] ==>
                  r == Item(0, q.fifo[0].item) && q' == q.(fifo := q.fifo[1..]))
            && (!q.finished[0].recv && q.fifo == [] && q.finished[0].send ==>
                  r == EofOf(0) && q' == q.(finished := [Flags(true, true)]))
            && (!q.finished[0].recv && q.fifo == [] && !q.finished[0].send ==> r == WouldBlock && q' == q)
            && (q.finished[0].recv ==> r == AllDone && q' == q.(fifo := []))
  {
    if q.finished[0].recv {
      AllClosed(q.fifo, q.finished);
      assert AllEnded(q.finished);
    } else if q.fifo == [] {
      assert q.finished[0].send ==> q.finished[0 := q.finished[0].(recv := true)] == [Flags(true, true)];
      assert AllEnded(q.finished) <==> q.finished[0].send;
    } else {
      assert q.fifo[0].stream == 0;
    }
  }

  lemma {:induction false} AllClosed<T>(fifo: seq<Elem<T>>, finished: seq<Flags>)
    requires forall k :: 0 <= k < |fifo| ==> fifo[k].stream < |finished|
    requires forall k :: 0 <= k < |finished| ==> finished[k].recv
    ensures DropClosed(fifo, finished) == []
  {
    if fifo != [] {
      AllClosed(fifo[1..], finished);
    }
  }

  lemma {:induction false} FrameTagsAppend(fifo: seq<Elem<Output>>, e: Elem<Output>)
    ensures FrameTags(fifo + [e]) == FrameTags(fifo) + if e.item.Frame? then [e.item.tag] else []
  {
    if fifo == [] {
      assert fifo + [e] == [e];
    } else {
      FrameTagsAppend(fifo[1..], e);
      assert (fifo + [e])[1..] == fifo[1..] + [e];
    }
  }

  // ---- every step keeps the invariant ----

  lemma InitInv()
    ensures Inv(Init())
  {
  }

  lemma MainInv(s: State, a: Step)
    requires Inv(s) && Enabled(s, a) && !a.MainReceive?
    requires a.Call? || a.CallEof? || a.Free? || a.MainSend? || a.MainStopSend? || a.MainStopReceive? || a.MainJoin?
    ensures Inv(Apply(s, a))
  {
  }

  /** What is left of an answer when its first item has been taken. */
  lemma AnswerTail(fifo: seq<Elem<Output>>, tag: nat)
    requires fifo != []
    ensures AllFrames(fifo, tag) ==> fifo[0].item == Frame(tag) && AllFrames(fifo[1..], tag)
    ensures MarkedFrames(fifo, tag) ==>
              if fifo[0].item.Mark? then fifo[1..] == [] else fifo[0].item == Frame(tag) && MarkedFrames(fifo[1..], tag)
  {
    if |fifo| > 1 {
      assert fifo[1..][..|fifo| - 2] == fifo[..|fifo| - 1][1..];
    }
  }

  lemma MainReceiveInv(s: State, processed: bool)
    requires Inv(s) && Enabled(s, MainReceive(processed))
    ensures Inv(Apply(s, MainReceive(processed)))
  {
    hide ReceiveLocked, MarkedFrames, AllFrames;
    OneStreamReceive(s.qout);
    var fifo := s.qout.fifo;
    if fifo != [] {
      AnswerTail(fifo, s.call);
    }
  }

  lemma DecReceiveInv(s: State)
    requires Inv(s) && Enabled(s, DecReceive)
    ensures Inv(Apply(s, DecReceive))
  {
    hide ReceiveLocked;
    OneStreamReceive(s.qin);
  }

  lemma DecSendFrameInv(s: State)
    requires Inv(s) && Enabled(s, DecSendFrame)
    ensures Inv(Apply(s, DecSendFrame))
  {
    hide FrameTags;
    FrameTagsAppend(s.qout.fifo, Elem(0, Frame(s.dec.tag)));
    assert s.received + (FrameTags(s.qout.fifo) + [s.dec.tag]) == (s.received + FrameTags(s.qout.fifo)) + [s.dec.tag];
  }

  lemma AnswerEnd(fifo: seq<Elem<Output>>, tag: nat)
    ensures AllFrames(fifo, tag) ==> MarkedFrames(fifo + [Elem(0, Mark(tag))], tag)
  {
    assert (fifo + [Elem(0, Mark(tag))])[..|fifo|] == fifo;
  }

  lemma DecMarkInv(s: State)
    requires Inv(s) && Enabled(s, DecMark)
    ensures Inv(Apply(s, DecMark))
  {
    hide FrameTags, AllFrames, MarkedFrames;
    FrameTagsAppend(s.qout.fifo, Elem(0, Mark(s.dec.tag)));
    AnswerEnd(s.qout.fifo, s.dec.tag);
  }

  lemma DecLocalInv(s: State, a: Step)
    requires Inv(s) && Enabled(s, a)
    requires a.DecFrame? || a.DecReturn? || a.DecCloseIn? || a.DecCloseOut?
    ensures Inv(Apply(s, a))
  {
  }

  lemma StepInv(s: State, a: Step)
    requires Inv(s) && Enabled(s, a)
    ensures Inv(Apply(s, a))
  {
    hide Inv, Wf, Apply, Enabled;
    match a
    case MainReceive(processed) => MainReceiveInv(s, processed);
    case DecReceive => DecReceiveInv(s);
    case DecSendFrame => DecSendFrameInv(s);
    case DecMark => DecMarkInv(s);
    case DecFrame => DecLocalInv(s, a);
    case DecReturn(_) => DecLocalInv(s, a);
    case DecCloseIn => DecLocalInv(s, a);
    case DecCloseOut => DecLocalInv(s, a);
    case _ => MainInv(s, a);
  }

  ghost predicate LegalRun(s: State, steps: seq<Step>)
    requires Inv(s)
    decreases |steps|
  {
    steps != [] ==> Enabled(s, steps[0]) && (StepInv(s, steps[0]); LegalRun(Apply(s, steps[0]), steps[1..]))
  }

  ghost function Run(s: State, steps: seq<Step>): (r: State)
    requires Inv(s) && LegalRun(s, steps)
    ensures Inv(r)
    decreases |steps|
  {
    if steps == [] then s
    else
      StepInv(s, steps[0]);
      Run(Apply(s, steps[0]), steps[1..])
  }

  // ---- the protocol's promises, for every reachable state ----

  lemma MainBlockedDecFree(s: State)
    requires Inv(s) && MainBlocked(s)
    ensures !s.dec.Exited? && !DecBlocked(s)
  {
    hide ReceiveLocked, FrameTags;
    OneStreamReceive(s.qin);
    OneStreamReceive(s.qout);
  }

  /** The two threads are never both blocked: whenever the main thread has to wait, the decoder
      has not exited and can go on. */
  lemma NeverBothBlocked(steps: seq<Step>)
    requires Inv(Init()) ==> LegalRun(Init(), steps)
    ensures Inv(Init())
    ensures var s := Run(Init(), steps); MainBlocked(s) ==> !s.dec.Exited? && !DecBlocked(s)
  {
    InitInv();
    hide MainBlocked, DecBlocked;
    var s := Run(Init(), steps);
    if MainBlocked(s) {
      MainBlockedDecFree(s);
    }
  }

  /** Every frame is taken by the dec_packet call whose request produced it; and when dec_packet
      returns 0, all frames produced so far have been taken and both queues are empty. */
  lemma Lockstep(steps: seq<Step>)
    requires Inv(Init()) ==> LegalRun(Init(), steps)
    ensures Inv(Init())
    ensures var s := Run(Init(), steps);
            && s.received == s.receivedIn
            && (s.main.Outside? ==> s.qin.fifo == [] && s.qout.fifo == [] && s.received == s.produced)
  {
    InitInv();
    var s := Run(Init(), steps);
    assert s.main.Outside? ==> FrameTags(s.qout.fifo) == [] && s.received + [] == s.received;
  }

  /** How far the decoder is from its exit once both queues are closed on the main side. */
  function ToExit(d: Dec): nat {
    match d
    case Waiting => 6
    case Decoding(_, _) => 5
    case SendingFrame(_, _) => 4
    case Marking(_, _) => 3
    case CloseIn => 2
    case CloseOut => 1
    case Exited => 0
  }

  predicate DecStep(a: Step) {
    a.DecReceive? || a.DecFrame? || a.DecSendFrame? || a.DecReturn? || a.DecMark? || a.DecCloseIn? || a.DecCloseOut?
  }

  /** After dec_thread_stop has signalled, the decoder is never blocked and each of its steps
      brings it closer to its exit, so the join returns. */
  lemma StopReachesExit(s: State)
    requires Inv(s) && s.main.Joining?
    ensures !DecBlocked(s)
    ensures !s.dec.Exited? ==> exists a :: DecStep(a) && Enabled(s, a)
    ensures forall a :: DecStep(a) && Enabled(s, a) ==>
              ToExit(Apply(s, a).dec) < ToExit(s.dec) && Apply(s, a).main.Joining?
    ensures s.dec.Exited? ==> Enabled(s, MainJoin)
  {
    hide ReceiveLocked;
    OneStreamReceive(s.qin);
    OneStreamReceive(s.qout);
    var a := match s.dec
             case Waiting => DecReceive
             case Decoding(_, _) => DecFrame
             case SendingFrame(_, _) => DecSendFrame
             case Marking(_, _) => DecMark
             case CloseIn => DecCloseIn
             case CloseOut => DecCloseOut
             case Exited => MainJoin;
    assert Enabled(s, a);
  }
}
