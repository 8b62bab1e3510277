/** The decoder thread while nothing goes wrong: dec_packet and decoder_thread of
fftools/ffmpeg_dec.c:688-859 between the start of the stream and its end. Every call is answered by
the mark of its own packet, and the thread goes on to the next. */
module DecoderProgress {
  import opened ThreadQueueModel
  import opened DecoderProtocol

  /** Nothing ends the stream in this step: the main thread neither sends the end nor frees the
      decoder, every frame is processed, and decoding fails nowhere and reports its end only when
      flushed. `flush` says whether the current call is a flush. */
  predicate Steady(flush: bool, a: Step) {
    match a
    case CallEof => false
    case Free => false
    case MainReceive(processed) => processed
    case DecReturn(ret) => ret.Ok? || (ret.ReturnEof? && flush)
    case _ => true
  }

  function FlushAfter(flush: bool, a: Step): bool {
    if a.Call? then a.flush else flush
  }

  ghost predicate SteadyRun(s: State, flush: bool, steps: seq<Step>)
    requires Inv(s)
    decreases |steps|
  {
    steps != [] ==>
      && Enabled(s, steps[0]) && Steady(flush, steps[0])
      && (StepInv(s, steps[0]); SteadyRun(Apply(s, steps[0]), FlushAfter(flush, steps[0]), steps[1..]))
  }

  /** The stream is open on both sides, and what the decoder does is what the call asked for. */
  predicate Open(s: State, flush: bool)
    requires Wf(s)
  {
    && Live(s.main) && !Closing(s.dec)
    && s.qin.finished[0] == Flags(false, false) && s.qout.finished[0] == Flags(false, false)
    && (s.main.Sending? ==> (s.main.req.Flush? <==> flush))
    && (s.main.Outside? ==> s.qin.fifo == [] && s.dec.Waiting?)
    && (s.qin.fifo != [] ==> (s.qin.fifo[0].item.Flush? <==> flush))
    && (Busy(s.dec) ==> (s.dec.kind.Flushing? <==> flush) && !s.dec.kind.AtEof?)
  }

  /** Outside calls the decoder waits for the next request, or has been sent the end. */
  predicate Rests(s: State)
    requires Wf(s)
  {
    s.main.Outside? ==> s.qin.fifo == [] && (s.qin.finished[0].send || s.dec.Waiting?)
  }

  lemma MainOpen(s: State, flush: bool, a: Step)
    requires Wf(s) && Open(s, flush) && Enabled(s, a) && Steady(flush, a) && (a.Call? || a.MainSend?)
    ensures var r := Apply(s, a);
            Wf(r) && Rests(r) ==> Open(r, FlushAfter(flush, a))
  {
  }

  /** A receive that is not blocked takes the first item of an open queue. */
  lemma OpenReceive<T>(q: TQ<T>)
    requires Valid(q) && q.finished == [Flags(false, false)] && !ReceiveLocked(q).1.WouldBlock?
    ensures q.fifo != [] && ReceiveLocked(q) == (q.(fifo := q.fifo[1..]), Item(0, q.fifo[0].item))
  {
    OneStreamReceive(q);
    hide ReceiveLocked;
  }

  lemma ReceiveOpen(s: State, flush: bool)
    requires Wf(s) && Open(s, flush) && Enabled(s, MainReceive(true))
    ensures var r := Apply(s, MainReceive(true));
            Wf(r) && Rests(r) ==> Open(r, flush)
  {
    hide ReceiveLocked, Valid, SendEnter, DecBlocked;
    assert s.qout.finished == [Flags(false, false)];
    OpenReceive(s.qout);
  }

  lemma AtMostFull<T>(q: TQ<T>)
    requires Valid(q)
    ensures |q.fifo| <= q.capacity
  {
  }

  lemma TakeIs(s: State)
    requires Wf(s) && s.qin.finished == [Flags(false, false)] && Enabled(s, DecReceive)
    ensures s.qin.fifo != []
    ensures var x := s.qin.fifo[0].item;
            Apply(s, DecReceive) == s.(qin := s.qin.(fifo := []), dec := Decoding(if x.Flush? then Flushing else Data, x.tag))
  {
    hide ReceiveLocked, Valid, SendEnter, MainBlocked;
    AtMostFull(s.qin);
    OpenReceive(s.qin);
    assert s.qin.fifo[1..] == [];
  }

  lemma TakeOpen(s: State, flush: bool)
    requires Wf(s) && Open(s, flush) && Enabled(s, DecReceive)
    ensures var r := Apply(s, DecReceive); Wf(r) && Rests(r) ==> Open(r, flush)
  {
    assert s.qin.finished == [Flags(false, false)];
    TakeIs(s);
    hide Apply, Enabled, Valid;
  }

  lemma DecOpen(s: State, flush: bool, a: Step)
    requires Wf(s) && Open(s, flush) && Enabled(s, a) && Steady(flush, a) && DecStep(a) && !a.DecReceive?
    ensures var r := Apply(s, a); Wf(r) && Rests(r) ==> Open(r, FlushAfter(flush, a))
  {
    hide ReceiveLocked;
  }

  lemma StepOpen(s: State, flush: bool, a: Step)
    requires Inv(s) && Open(s, flush) && Enabled(s, a) && Steady(flush, a)
    ensures Inv(Apply(s, a)) && Open(Apply(s, a), FlushAfter(flush, a))
  {
    StepInv(s, a);
    OutsideIdle(Apply(s, a));
    OpenStep(s, flush, a);
    hide Inv, Apply, Open, Enabled, Steady;
    if a.DecReceive? {
      TakeOpen(s, flush);
    } else if DecStep(a) {
      DecOpen(s, flush, a);
    } else if a.MainReceive? {
      ReceiveOpen(s, flush);
    } else {
      MainOpen(s, flush, a);
    }
  }

  lemma OpenStep(s: State, flush: bool, a: Step)
    requires Wf(s) && Open(s, flush) && Enabled(s, a) && Steady(flush, a)
    ensures DecStep(a) || a.Call? || a.MainSend? || a == MainReceive(true)
  {
  }

  lemma OutsideIdle(s: State)
    requires Inv(s)
    ensures Wf(s) && Rests(s)
  {
  }

  function LastFlush(flush: bool, steps: seq<Step>): bool
    decreases |steps|
  {
    if steps == [] then flush else LastFlush(FlushAfter(flush, steps[0]), steps[1..])
  }

  lemma {:induction false} SteadyOpen(s: State, flush: bool, steps: seq<Step>)
    requires Inv(s) && Open(s, flush) && SteadyRun(s, flush, steps)
    ensures LegalRun(s, steps) && Open(Run(s, steps), LastFlush(flush, steps))
    decreases |steps|
  {
    if steps != [] {
      StepOpen(s, flush, steps[0]);
      SteadyOpen(Apply(s, steps[0]), FlushAfter(flush, steps[0]), steps[1..]);
    }
  }

  /** From the start, over every interleaving of such steps, no side is ever closed, the decoder
      thread never leaves its loop, and dec_packet is never on its way to stopping it. */
  lemma StreamStaysOpen(flush: bool, steps: seq<Step>)
    requires Inv(Init()) ==> SteadyRun(Init(), flush, steps)
    ensures Inv(Init()) && LegalRun(Init(), steps)
    ensures var s := Run(Init(), steps);
            && (s.main.Outside? || s.main.Sending? || s.main.Receiving?)
            && !(s.dec.CloseIn? || s.dec.CloseOut? || s.dec.Exited?)
            && s.qin.finished == [Flags(false, false)] && s.qout.finished == [Flags(false, false)]
  {
    InitInv();
    SteadyOpen(Init(), flush, steps);
  }

  /** A call then returns in one way only: it takes the mark of its own packet, behind all frames that
      the packet gave. */
  lemma ReturnsByMark(s: State, flush: bool, a: Step)
    requires Inv(s) && Open(s, flush) && Enabled(s, a) && Steady(flush, a)
    requires !s.main.Outside? && Apply(s, a).main.Outside?
    ensures a.MainReceive? && s.qout.fifo == [Elem(0, Mark(s.call))]
    ensures Apply(s, a).received == Apply(s, a).produced
  {
    OneStreamReceive(s.qout);
    hide ReceiveLocked;
    assert a.MainReceive? && s.qout.fifo != [] && s.qout.fifo[0].item.Mark?;
    AnswerTail(s.qout.fifo, s.call);
    assert s.qout.fifo[0].stream == 0;
    assert s.qout.fifo == [s.qout.fifo[0]];
    StepInv(s, a);
  }

  // ---- every call ends ----

  predicate InsideCall(m: Main) {
    !m.Outside? && !m.Joined?
  }

  /** How far the main thread is from the end of the call, the way through dec_thread_stop included. */
  function MainLeft(m: Main): nat {
    match m
    case Sending(_) => 9
    case Receiving => 4
    case StopSend => 3
    case StopReceive => 2
    case Joining => 1
    case _ => 0
  }

  /** How far the decoder is from its exit; after the answer to a packet there is at most the end. */
  function DecLeft(d: Dec): nat {
    match d
    case Waiting => 6
    case Decoding(kind, _) => if kind.AtEof? then 5 else 9
    case SendingFrame(kind, _) => if kind.AtEof? then 7 else 11
    case Marking(kind, _) => if kind.AtEof? then 4 else 8
    case CloseIn => 2
    case CloseOut => 1
    case Exited => 0
  }

  function Left(s: State): nat {
    MainLeft(s.main) + 4 * |s.qin.fifo| + DecLeft(s.dec) + |s.qout.fifo|
  }

  lemma MainCloser(s: State, a: Step)
    requires Wf(s) && Enabled(s, a) && InsideCall(s.main) && !DecStep(a)
    ensures Left(Apply(s, a)) < Left(s)
  {
    hide ReceiveLocked, DecBlocked, Valid;
    if a.MainReceive? {
      assert s.main.Receiving?;
      ReceiveShrinks(s.qout);
    }
  }

  lemma ReceiveShrinks<T>(q: TQ<T>)
    requires Valid(q) && |q.finished| == 1
    ensures var (q', r) := ReceiveLocked(q);
            |q'.fifo| + (if r.Item? then 1 else 0) <= |q.fifo|
  {
    OneStreamReceive(q);
    hide ReceiveLocked;
  }

  lemma DecCloser(s: State, a: Step)
    requires Wf(s) && Enabled(s, a) && DecStep(a)
    ensures if a.DecFrame? then Left(Apply(s, a)) == Left(s) + 2 else Left(Apply(s, a)) < Left(s)
  {
    hide ReceiveLocked, MainBlocked, Valid;
    if a.DecReceive? {
      ReceiveShrinks(s.qin);
    }
  }

  /** Some step other than producing a frame is always enabled. */
  lemma CallGoesOn(s: State)
    requires Inv(s) && InsideCall(s.main)
    ensures exists a :: Enabled(s, a) && !a.DecFrame?
  {
    if MainBlocked(s) {
      if s.main.Joining? {
        StopReachesExit(s);
      } else {
        MainBlockedDecFree(s);
      }
      DecGoesOn(s);
    } else {
      var a := match s.main
               case Sending(_) => MainSend
               case Receiving => MainReceive(true)
               case StopSend => MainStopSend
               case StopReceive => MainStopReceive
               case _ => MainJoin;
      assert Enabled(s, a);
    }
  }

  lemma DecGoesOn(s: State)
    requires Wf(s) && !DecBlocked(s) && !s.dec.Exited?
    ensures exists a :: Enabled(s, a) && !a.DecFrame?
  {
    hide ReceiveLocked, MainBlocked, DecBlocked;
    var a := match s.dec
             case Waiting => DecReceive
             case Decoding(_, _) => DecReturn(Ok)
             case SendingFrame(_, _) => DecSendFrame
             case Marking(_, _) => DecMark
             case CloseIn => DecCloseIn
             case _ => DecCloseOut;
    assert Enabled(s, a);
  }

  function Frames(steps: seq<Step>): nat {
    if steps == [] then 0 else (if steps[0].DecFrame? then 1 else 0) + Frames(steps[1..])
  }

  /** The main thread is inside one call from the first step to the last. */
  ghost predicate WithinCall(s: State, steps: seq<Step>)
    requires Inv(s) && LegalRun(s, steps)
    decreases |steps|
  {
    steps != [] ==> InsideCall(s.main) && (StepInv(s, steps[0]); WithinCall(Apply(s, steps[0]), steps[1..]))
  }

  lemma {:induction false} CallSteps(s: State, steps: seq<Step>)
    requires Inv(s) && LegalRun(s, steps) && WithinCall(s, steps)
    ensures |steps| + Left(Run(s, steps)) <= Left(s) + 3 * Frames(steps)
    decreases |steps|
  {
    if steps != [] {
      StepInv(s, steps[0]);
      if DecStep(steps[0]) {
        DecCloser(s, steps[0]);
      } else {
        MainCloser(s, steps[0]);
      }
      hide Inv, Enabled, Apply, Left;
      CallSteps(Apply(s, steps[0]), steps[1..]);
    }
  }

  /** Every call ends, of dec_packet or dec_free, with a packet, a flush or the end, and whatever the
      decoder makes of it: after 15 steps of the two threads and three more for each frame at most, and
      until then it can always go on. */
  lemma CallEnds(before: seq<Step>, call: Step, steps: seq<Step>)
    requires call.Call? || call.CallEof? || call.Free?
    requires Inv(Init()) ==> LegalRun(Init(), before)
    requires Inv(Init()) ==> var s := Run(Init(), before);
             Enabled(s, call) && (Inv(Apply(s, call)) ==> LegalRun(Apply(s, call), steps) && WithinCall(Apply(s, call), steps))
    ensures Inv(Init()) && Inv(Apply(Run(Init(), before), call))
    ensures |steps| <= 15 + 3 * Frames(steps)
    ensures var r := Run(Apply(Run(Init(), before), call), steps);
            InsideCall(r.main) ==> exists a :: Enabled(r, a) && !a.DecFrame?
  {
    InitInv();
    var s := Run(Init(), before);
    StepInv(s, call);
    var s' := Apply(s, call);
    CallSteps(s', steps);
    assert Left(s') <= 15 by {
      hide ReceiveLocked;
      assert s.qin.fifo == [] && s.qout.fifo == [];
    }
    var r := Run(s', steps);
    if InsideCall(r.main) {
      CallGoesOn(r);
    }
  }

  lemma EofMeans<T>(q: TQ<T>)
    requires Valid(q) && |q.finished| == 1 && ReceiveLocked(q).1.EofOf?
    ensures q.fifo == [] && q.finished[0].send
  {
    hide ReceiveLocked, Valid;
    OneStreamReceive(q);
  }

  lemma EofStops(s: State, a: Step)
    requires Wf(s) && Enabled(s, a) && a.MainReceive? && ReceiveLocked(s.qout).1.EofOf?
    ensures s.main.Receiving? && Apply(s, a).main == StopSend
    ensures Apply(s, a).received == s.received && Apply(s, a).produced == s.produced
  {
    hide ReceiveLocked, Valid, MainBlocked;
  }

  /** The call that sends the end takes every frame there is before it stops the decoder. */
  lemma EndDrains(s: State, a: Step)
    requires Inv(s) && Enabled(s, a) && a.MainReceive? && ReceiveLocked(s.qout).1.EofOf?
    ensures Apply(s, a).main == StopSend && Apply(s, a).received == Apply(s, a).produced && s.dec.Exited?
  {
    assert Wf(s);
    EofStops(s, a);
    assert s.received + FrameTags(s.qout.fifo) == s.produced && (s.qout.finished[0].send ==> s.dec.Exited?);
    hide ReceiveLocked, Inv, Wf, Enabled, Apply;
    EofMeans(s.qout);
    assert FrameTags([]) == [] && s.received + [] == s.received;
  }

  // ---- what ends the stream ----

  /** The decoder does not succeed in this step, nor does it end in a flush. */
  predicate Failing(flush: bool, a: Step) {
    a.DecReturn? ==> a.ret.Error? || (a.ret.ReturnEof? && !flush)
  }

  lemma TakenAnswer(s: State, processed: bool)
    requires Wf(s) && Enabled(s, MainReceive(processed)) && !s.qout.finished[0].recv
    ensures var r := Apply(s, MainReceive(processed)).main;
            && (r.Outside? <==> s.qout.fifo != [] && s.qout.fifo[0].item.Mark?)
            && (r.Receiving? <==> s.qout.fifo != [] && s.qout.fifo[0].item.Frame? && processed)
            && (r.Outside? || r.Receiving? || r.StopSend?)
    ensures var r := Apply(s, MainReceive(processed));
            && r.qout.fifo == (if s.qout.fifo == [] then [] else s.qout.fifo[1..])
            && r.qin == s.qin && r.dec == s.dec
  {
    hide ReceiveLocked, Valid, SendEnter, DecBlocked;
    OneStreamReceive(s.qout);
  }

  /** What a call takes from the decoder decides how it goes on: it returns with the mark, goes on with
      a frame that was processed, and else begins to stop the decoder. */
  lemma TakenMeans(s: State, processed: bool)
    requires Inv(s) && Enabled(s, MainReceive(processed))
    ensures var r := Apply(s, MainReceive(processed)).main;
            && (r.Outside? <==> s.qout.fifo != [] && s.qout.fifo[0].item.Mark?)
            && (r.Receiving? <==> s.qout.fifo != [] && s.qout.fifo[0].item.Frame? && processed)
            && (r.Outside? || r.Receiving? || r.StopSend?)
    ensures var r := Apply(s, MainReceive(processed));
            && r.qout.fifo == (if s.qout.fifo == [] then [] else s.qout.fifo[1..])
            && r.qin == s.qin && r.dec == s.dec
  {
    assert Wf(s) && !s.qout.finished[0].recv;
    hide Inv, Wf, Apply;
    TakenAnswer(s, processed);
  }

  /** No frames but decoded ones are on their way to a main thread that would take a mark, and a flush
      is under way only if the call is one. */
  predicate Unmarked(s: State, flush: bool) {
    && !s.main.Outside?
    && (Live(s.main) ==> !s.dec.Marking? && AllFrameItems(s.qout.fifo))
    && (s.main.Sending? && s.main.req.Flush? ==> flush)
    && (forall k :: 0 <= k < |s.qin.fifo| && s.qin.fifo[k].item.Flush? ==> flush)
    && (Busy(s.dec) && s.dec.kind.Flushing? ==> flush)
  }

  predicate AllFrameItems(fifo: seq<Elem<Output>>) {
    forall k :: 0 <= k < |fifo| ==> fifo[k].item.Frame?
  }

  lemma MainUnmarked(s: State, flush: bool, a: Step)
    requires Wf(s) && Unmarked(s, flush) && Enabled(s, a) && !DecStep(a) && !a.MainReceive?
    ensures Unmarked(Apply(s, a), flush)
  {
  }

  lemma TakenUnmarked(s: State, flush: bool, a: Step)
    requires Inv(s) && Unmarked(s, flush) && Enabled(s, a) && a.MainReceive?
    ensures Unmarked(Apply(s, a), flush)
  {
    assert a == MainReceive(a.processed) && s.main.Receiving?;
    assert Wf(s);
    hide Inv, Wf, Apply, Enabled, Unmarked;
    TakenMeans(s, a.processed);
    TailUnmarked(s, Apply(s, a), flush);
  }

  lemma TailUnmarked(s: State, r: State, flush: bool)
    requires Unmarked(s, flush) && s.main.Receiving? && r.qin == s.qin && r.dec == s.dec
    requires r.qout.fifo == if s.qout.fifo == [] then [] else s.qout.fifo[1..]
    requires r.main.Outside? <==> s.qout.fifo != [] && s.qout.fifo[0].item.Mark?
    requires r.main.Outside? || r.main.Receiving? || r.main.StopSend?
    ensures Unmarked(r, flush)
  {
  }

  lemma RequestUnmarked(s: State, flush: bool)
    requires Wf(s) && Unmarked(s, flush) && Enabled(s, DecReceive)
    ensures Unmarked(Apply(s, DecReceive), flush)
  {
    RequestMeans(s);
    hide Wf, ReceiveLocked, Apply, Enabled;
  }

  lemma RequestMeans(s: State)
    requires Wf(s) && Enabled(s, DecReceive)
    ensures var r := Apply(s, DecReceive);
            && r == s.(qin := r.qin, dec := r.dec) && r.dec.Decoding?
            && (r.dec.kind.Flushing? ==> s.qin.fifo != [] && s.qin.fifo[0].item.Flush?)
            && (r.qin.fifo == [] || (s.qin.fifo != [] && r.qin.fifo == s.qin.fifo[1..]))
  {
    hide ReceiveLocked, Valid, MainBlocked, SendEnter;
    OneStreamReceive(s.qin);
  }

  lemma DecUnmarked(s: State, flush: bool, a: Step)
    requires Wf(s) && Unmarked(s, flush) && Enabled(s, a) && Failing(flush, a) && DecStep(a) && !a.DecReceive?
    requires Live(s.main) ==> !s.qout.finished[0].recv
    requires a.DecSendFrame? ==> !(Live(s.main) && s.qout.finished[0].send)
    ensures Unmarked(Apply(s, a), flush)
  {
  }

  lemma StepUnmarked(s: State, flush: bool, a: Step)
    requires Inv(s) && Unmarked(s, flush) && Enabled(s, a) && Failing(flush, a)
    ensures Inv(Apply(s, a)) && Unmarked(Apply(s, a), flush)
  {
    StepInv(s, a);
    assert Wf(s) && (Live(s.main) ==> !s.qout.finished[0].recv);
    assert a.DecSendFrame? ==> !(Live(s.main) && s.qout.finished[0].send);
    hide Inv, Apply, Unmarked, Enabled, Failing;
    if a.MainReceive? {
      TakenUnmarked(s, flush, a);
    } else if a.DecReceive? {
      RequestUnmarked(s, flush);
    } else if DecStep(a) {
      DecUnmarked(s, flush, a);
    } else {
      MainUnmarked(s, flush, a);
    }
  }

  lemma {:induction false} UnmarkedRun(s: State, flush: bool, steps: seq<Step>)
    requires Inv(s) && LegalRun(s, steps) && Unmarked(s, flush) && forall k :: 0 <= k < |steps| ==> Failing(flush, steps[k])
    ensures !Run(s, steps).main.Outside?
    decreases |steps|
  {
    if steps != [] {
      StepUnmarked(s, flush, steps[0]);
      UnmarkedRun(Apply(s, steps[0]), flush, steps[1..]);
    }
  }

  lemma CallUnmarked(s: State, call: Step)
    requires Wf(s) && Enabled(s, call) && (call.Call? || call.CallEof?)
    requires s.qin.fifo == [] && s.qout.fifo == [] && !Busy(s.dec)
    ensures Unmarked(Apply(s, call), call.Call? && call.flush)
  {
  }

  /** A call for which the decoder does not succeed, nor end in a flush, does not return to the next:
      its only end is that of the stream. So the end of the decoder, and every error, ends it. */
  lemma FailureEndsStream(before: seq<Step>, call: Step, steps: seq<Step>)
    requires call.Call? || call.CallEof?
    requires forall k :: 0 <= k < |steps| ==> Failing(call.Call? && call.flush, steps[k])
    requires Inv(Init()) ==> LegalRun(Init(), before)
    requires Inv(Init()) ==> var s := Run(Init(), before);
             Enabled(s, call) && (Inv(Apply(s, call)) ==> LegalRun(Apply(s, call), steps))
    ensures Inv(Init()) && Inv(Apply(Run(Init(), before), call))
    ensures !Run(Apply(Run(Init(), before), call), steps).main.Outside?
  {
    InitInv();
    var s := Run(Init(), before);
    StepInv(s, call);
    assert s.qin.fifo == [] && s.qout.fifo == [] && !Busy(s.dec);
    CallUnmarked(s, call);
    hide Inv, Apply, Unmarked, Enabled, Failing;
    UnmarkedRun(Apply(s, call), call.Call? && call.flush, steps);
  }
}
