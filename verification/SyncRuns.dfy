/** Whole runs of the sync queue: any order of sends, end-of-stream marks, receives (with
their heartbeats), frame limits and frame sizes. */
module SyncRuns {
  import opened Time
  import opened SyncModel
  import opened SyncHeads
  import opened SyncSamples

  datatype Op =
    | Send(i: nat, frame: Frame)
    | Finish(i: nat)
    | Recv(idx: int)
    | Limit(i: nat, frames: nat)
    | FrameSize(i: nat, size: nat)

  datatype Event =
    | Accepted(i: nat, frame: Frame)
    | Refused
    | Released(i: nat, frame: Frame)
    | TryAgain
    | AtEof(idx: int)
    | Quiet

  /** All streams are added before anything else happens. */
  function NewQueue(limits: seq<bool>, bufSize: int): Queue {
    Queue(seq(|limits|, k requires 0 <= k < |limits| => NewStream(limits[k])), false, -1, -1, bufSize,
          exists k :: 0 <= k < |limits| && limits[k])
  }

  /** What every step needs and keeps. */
  ghost predicate Basic(q: Queue) {
    InBounds(q) && StreamsOk(q)
  }

  /** And with the cached head and the finish closure, which a change of time base can upset. */
  ghost predicate Inv(q: Queue) {
    Sound(q) && StreamsOk(q)
  }

  predicate Takes(e: Event, i: nat) {
    e.Released? && e.i == i
  }

  predicate Gives(e: Event, i: nat) {
    e.Accepted? && e.i == i
  }

  /** What the code asserts of its callers. */
  predicate Legal(q: Queue, op: Op) {
    match op
    case Send(i, f) => i < |q.streams| && (!q.streams[i].finished ==> MaySend(q.streams[i], f))
    case Finish(i) => i < |q.streams|
    case Recv(idx) => idx < |q.streams|
    case Limit(i, frames) => i < |q.streams|
    case FrameSize(i, size) => i < |q.streams|
  }

  /** No change of time base upsets the heads. */
  ghost predicate Safe(q: Queue, op: Op)
    requires InBounds(q) && Legal(q, op)
  {
    op.Send? ==> SafeSend(q, op.i, op.frame)
  }

  ghost function Step(q: Queue, op: Op): (r: (Queue, Event))
    requires Basic(q) && Legal(q, op)
    ensures |r.0.streams| == |q.streams|
  {
    match op
    case Send(i, f) => (SendFrame(q, i, f), if q.streams[i].finished then Refused else Accepted(i, f))
    case Finish(i) => (FinishStream(q, i), Quiet)
    case Recv(idx) =>
      CountableFromOk(q);
      var (r, out) := Receive(q, idx);
      (r, match out
          case Got(i, f) => Released(i, f)
          case Again => TryAgain
          case Eof => AtEof(idx))
    case Limit(i, frames) => (LimitFrames(q, i, frames), Quiet)
    case FrameSize(i, size) => (SetStream(q, i, q.streams[i].(frameSamples := size)), Quiet)
  }

  lemma NewQueueAdds(limits: seq<bool>, limiting: bool, bufSize: int)
    ensures AddStream(NewQueue(limits, bufSize), limiting) == NewQueue(limits + [limiting], bufSize)
  {
    var r := NewQueue(limits + [limiting], bufSize);
    assert r.streams == NewQueue(limits, bufSize).streams + [NewStream(limiting)];
    assert limiting ==> (limits + [limiting])[|limits|];
    assert forall k :: 0 <= k < |limits| ==> (limits + [limiting])[k] == limits[k];
  }

  lemma NewQueueInv(limits: seq<bool>, bufSize: int)
    requires limits != []
    ensures Inv(NewQueue(limits, bufSize))
  {
    var q := NewQueue(limits, bufSize);
    if q.haveLimiting {
      var k :| 0 <= k < |limits| && limits[k];
      assert q.streams[k].limiting;
    }
    assert !q.streams[0].finished;
  }

  lemma StreamsOkRelabel(q: Queue, i: int, st: Stream)
    requires InBounds(q) && StreamsOk(q) && 0 <= i < |q.streams| && st.limiting == q.streams[i].limiting
    requires st.fifo == q.streams[i].fifo && st.samplesQueued == q.streams[i].samplesQueued && st.tb == q.streams[i].tb
    ensures StreamsOk(SetStream(q, i, st))
  {
    assert StreamOk(q.streams[i]);
  }

  lemma ReceiveInternalBuffers(q: Queue, idx: int)
    requires InBounds(q) && StreamsOk(q) && AllCountable(q) && idx < |q.streams|
    ensures StreamsOk(ReceiveInternal(q, idx).0)
  {
    var r := ReceiveInternal(q, idx);
    if r.1.Got? {
      ReceiveForBuffers(q, r.1.idx);
    }
  }

  lemma ReceiveBuffers(q: Queue, idx: int)
    requires InBounds(q) && StreamsOk(q) && AllCountable(q) && idx < |q.streams|
    ensures StreamsOk(Receive(q, idx).0)
  {
    hide ReceiveInternal;
    ReceiveInternalBuffers(q, idx);
    var q1 := Heartbeat(q, idx).0;
    OnlyHeadsKeepsBuffers(q, q1);
    CountableFromOk(q1);
    ReceiveInternalBuffers(q1, idx);
  }

  lemma StepBasic(q: Queue, op: Op)
    requires Basic(q) && Legal(q, op)
    ensures Basic(Step(q, op).0)
  {
    hide InBounds, StreamsOk, Receive, SendFrame, FinishStream, AllCountable;
    match op
    case Send(i, f) =>
      if !q.streams[i].finished {
        SendFrameBuffers(q, i, f);
      } else {
        SendRefused(q, i, f);
      }
    case Finish(i) =>
      OnlyHeadsKeepsBuffers(q, FinishStream(q, i));
    case Recv(idx) =>
      CountableFromOk(q);
      ReceiveBuffers(q, idx);
    case Limit(i, frames) =>
      var st := q.streams[i].(framesMax := frames);
      StreamsOkRelabel(q, i, st);
      OnlyHeadsKeepsBuffers(SetStream(q, i, st), FinishStream(SetStream(q, i, st), i));
    case FrameSize(i, size) =>
      StreamsOkRelabel(q, i, q.streams[i].(frameSamples := size));
  }

  /** Every operation keeps the cached head, the finish flags and the sample counts right, and
      heads never move back, as long as no change of time base upsets them. */
  lemma StepInv(q: Queue, op: Op)
    requires Inv(q) && Legal(q, op) && Safe(q, op)
    ensures Inv(Step(q, op).0) && Grows(q, Step(q, op).0)
  {
    hide HeadOk, FinishOk, Grows, InBounds, StreamsOk, Receive, SendFrame, SafeSend, FinishStream, AllCountable;
    StepBasic(q, op);
    match op
    case Send(i, f) => SendFrameSoundIff(q, i, f);
    case Finish(i) => FinishStreamSound(q, i);
    case Recv(idx) =>
      CountableFromOk(q);
      ReceiveSound(q, idx);
    case Limit(i, frames) => LimitFramesSound(q, i, frames);
    case FrameSize(i, size) => SetStreamSound(q, i, q.streams[i].(frameSamples := size));
  }

  /** And exactly then. */
  lemma StepInvIff(q: Queue, op: Op)
    requires Inv(q) && Legal(q, op)
    ensures Safe(q, op) <==> Inv(Step(q, op).0) && Grows(q, Step(q, op).0)
  {
    hide HeadOk, FinishOk, InBounds, Grows, StreamsOk, SafeSend, SendFrame;
    if Safe(q, op) {
      StepInv(q, op);
    } else {
      SendFrameSoundIff(q, op.i, op.frame);
    }
  }

  // ---- runs ----

  ghost predicate LegalRun(q: Queue, ops: seq<Op>)
    requires Basic(q)
    decreases |ops|
  {
    ops != [] ==> Legal(q, ops[0]) && (StepBasic(q, ops[0]); LegalRun(Step(q, ops[0]).0, ops[1..]))
  }

  ghost function Run(q: Queue, ops: seq<Op>): (r: (Queue, seq<Event>))
    requires Basic(q) && LegalRun(q, ops)
    ensures |r.0.streams| == |q.streams| && |r.1| == |ops|
    decreases |ops|
  {
    if ops == [] then (q, [])
    else
      StepBasic(q, ops[0]);
      var (q1, e) := Step(q, ops[0]);
      var (r, es) := Run(q1, ops[1..]);
      (r, [e] + es)
  }

  ghost predicate SafeRun(q: Queue, ops: seq<Op>)
    requires Basic(q) && LegalRun(q, ops)
    decreases |ops|
  {
    ops != [] ==> Safe(q, ops[0]) && (StepBasic(q, ops[0]); SafeRun(Step(q, ops[0]).0, ops[1..]))
  }

  lemma {:induction false} RunInv(q: Queue, ops: seq<Op>)
    requires Inv(q) && LegalRun(q, ops) && SafeRun(q, ops)
    ensures Inv(Run(q, ops).0) && Grows(q, Run(q, ops).0)
    decreases |ops|
  {
    hide HeadOk, FinishOk, InBounds, StreamsOk, Grows, Step, Safe;
    if ops == [] {
      GrowsReflexive(q);
    } else {
      StepInv(q, ops[0]);
      var q1 := Step(q, ops[0]).0;
      RunInv(q1, ops[1..]);
      GrowsTransitive(q, q1, Run(q1, ops[1..]).0);
    }
  }

  /** A run by its first step and the rest. */
  lemma Prepend(q: Queue, op: Op, r: Queue, e: Event, rest: seq<Op>)
    requires Basic(q) && Legal(q, op) && Step(q, op) == (r, e)
    requires Basic(r) ==> LegalRun(r, rest)
    ensures Basic(r)
    ensures LegalRun(q, [op] + rest)
    ensures Run(q, [op] + rest) == (Run(r, rest).0, [e] + Run(r, rest).1)
  {
    hide Basic, Step, Legal;
    StepBasic(q, op);
    assert ([op] + rest)[1..] == rest;
  }

  lemma NoOps(q: Queue)
    requires Basic(q)
    ensures LegalRun(q, []) && Run(q, []) == (q, [])
  {
  }

  /** A frame without samples. */
  function Video(pts: int, duration: int, tb: Rational): Frame {
    Frame(pts, duration, tb, 1, [], 0)
  }

  // ---- no overtaking ----

  /** No frame of this event ends after the head of a limiting stream of q. */
  ghost predicate NotOvertaking(e: Event, q: Queue) {
    e.Released? && FrameEnd(e.frame, 0) != NOPTS ==>
      forall j :: 0 <= j < |q.streams| && q.streams[j].limiting ==>
        HasTs(q.streams[j]) && Instant(FrameEnd(e.frame, 0), e.frame.tb) <= HeadTime(q.streams[j])
  }

  lemma ReleasableBehindHeads(q: Queue, i: int)
    requires InBounds(q) && HeadOk(q) && 0 <= i < |q.streams| && Releasable(q, i)
    ensures var ts := FrameEnd(q.streams[i].fifo[0], WantSamples(q.streams[i]));
            ts != NOPTS ==> forall j :: 0 <= j < |q.streams| && q.streams[j].limiting ==>
              HasTs(q.streams[j]) && Instant(ts, q.streams[i].tb) <= HeadTime(q.streams[j])
  {
    hide Instant;
  }

  lemma ReceiveInternalNotOvertaking(q: Queue, idx: int)
    requires Inv(q) && AllCountable(q) && idx < |q.streams|
    ensures var (r, out) := ReceiveInternal(q, idx);
            out.Got? ==> NotOvertaking(Released(out.idx, out.frame), r)
  {
    hide HeadOk, FinishOk, Releasable, Instant, Rescale;
    var (r, out) := ReceiveInternal(q, idx);
    if out.Got? {
      assert StreamOk(q.streams[out.idx]);
      OutputPossible(q, out.idx);
      TakeOutputSplits(q.streams[out.idx]);
      ReleasableBehindHeads(q, out.idx);
      assert forall j :: 0 <= j < |q.streams| ==> HeadTime(r.streams[j]) == HeadTime(q.streams[j]);
    }
  }

  lemma ReceiveNotOvertaking(q: Queue, idx: int)
    requires Inv(q) && AllCountable(q) && idx < |q.streams|
    ensures var (r, out) := Receive(q, idx);
            out.Got? ==> NotOvertaking(Released(out.idx, out.frame), r)
  {
    hide Instant, HeadOk, FinishOk, InBounds, Grows, ReceiveInternal, StreamsOk, AllCountable, NotOvertaking;
    ReceiveInternalNotOvertaking(q, idx);
    var q1 := Heartbeat(q, idx).0;
    HeartbeatSound(q, idx);
    OnlyHeadsKeepsBuffers(q, q1);
    CountableFromOk(q1);
    ReceiveInternalNotOvertaking(q1, idx);
  }

  lemma StepNotOvertaking(q: Queue, op: Op)
    requires Inv(q) && Legal(q, op)
    ensures NotOvertaking(Step(q, op).1, Step(q, op).0)
  {
    hide Instant, HeadOk, FinishOk, InBounds, StreamsOk, SendFrame, FinishStream, LimitFrames, Receive;
    if op.Recv? {
      CountableFromOk(q);
      ReceiveNotOvertaking(q, op.idx);
    }
  }

  lemma NotOvertakingLater(e: Event, q: Queue, r: Queue)
    requires NotOvertaking(e, q) && Grows(q, r)
    ensures NotOvertaking(e, r)
  {
    hide Instant;
    if e.Released? && FrameEnd(e.frame, 0) != NOPTS {
      forall j | 0 <= j < |r.streams| && r.streams[j].limiting
        ensures HasTs(r.streams[j]) && Instant(FrameEnd(e.frame, 0), e.frame.tb) <= HeadTime(r.streams[j])
      {
        assert Later(q.streams[j], r.streams[j]);
      }
    }
  }

  /** Over every run, every timestamped frame released ends no later than the final head of
      every limiting stream. */
  lemma {:induction false} NoOvertaking(q: Queue, ops: seq<Op>, k: nat)
    requires Inv(q) && LegalRun(q, ops) && SafeRun(q, ops) && k < |ops|
    ensures NotOvertaking(Run(q, ops).1[k], Run(q, ops).0)
    decreases |ops|
  {
    hide HeadOk, FinishOk, InBounds, StreamsOk, Grows, NotOvertaking, Step, Safe;
    StepInv(q, ops[0]);
    var (q1, e) := Step(q, ops[0]);
    if k == 0 {
      StepNotOvertaking(q, ops[0]);
      RunInv(q1, ops[1..]);
      NotOvertakingLater(e, q1, Run(q1, ops[1..]).0);
    } else {
      NoOvertaking(q1, ops[1..], k - 1);
    }
  }
}
