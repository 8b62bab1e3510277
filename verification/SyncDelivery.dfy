/** What comes out of the sync queue over whole runs: conservation, end of stream and the
audio frame size. */
module SyncDelivery {
  import opened Arithmetic
  import opened Time
  import opened SyncModel
  import opened SyncHeads
  import opened SyncSamples
  import opened SyncRuns
  import opened SyncCounters

  // ---- what one step does to the FIFO of stream i ----

  /** A release hands out what TakeOutput gives; a heartbeat before it may have moved the head
      and finished the stream. */
  predicate ReleaseStep(a: Stream, b: Stream, f: Frame) {
    var a' := a.(finished := b.finished, headTs := b.headTs);
    StreamOk(a') && CanOutput(a') && WantSamples(a') <= a'.samplesQueued && TakeOutput(a') == (f, b)
  }

  predicate StreamStep(a: Stream, b: Stream, e: Event, i: nat) {
    if Takes(e, i) then ReleaseStep(a, b, e.frame)
    else if Gives(e, i) then !a.finished && b.fifo == a.fifo + [Normalise(e.frame)] && b.tb == e.frame.tb
    else b.fifo == a.fifo
  }

  lemma ReceiveForStep(q: Queue, j: nat, i: nat)
    requires InBounds(q) && StreamsOk(q) && AllCountable(q) && j < |q.streams| && i < |q.streams|
    requires Releasable(q, j)
    ensures var (r, out) := ReceiveFor(q, j);
            if j == i then ReleaseStep(q.streams[i], r.streams[i], out.frame)
            else r.streams[i] == q.streams[i]
  {
    assert StreamOk(q.streams[j]);
    TakeOutputSplits(q.streams[j]);
  }

  lemma ReleaseAfterBeat(a: Stream, a1: Stream, b: Stream, f: Frame)
    requires ReleaseStep(a1, b, f) && a1 == a.(headTs := a1.headTs, finished := a1.finished)
    ensures ReleaseStep(a, b, f)
  {
  }

  lemma ReceiveStreams(q: Queue, idx: int, i: nat)
    requires Basic(q) && AllCountable(q) && idx < |q.streams| && i < |q.streams|
    ensures var (r, out) := Receive(q, idx);
            && (out.Got? ==> out.idx < |q.streams|)
            && r.streams[i].frameSamples == q.streams[i].frameSamples
            && (if out.Got? && out.idx == i then ReleaseStep(q.streams[i], r.streams[i], out.frame)
                else SameBuffer(q.streams[i], r.streams[i]))
  {
    hide Samples, StreamsOk, AllCountable, Releasable, ReceiveFor, ReleaseStep;
    ReceiveInternalStep(q, idx, i);
    var q1 := Heartbeat(q, idx).0;
    OnlyHeadsKeepsBuffers(q, q1);
    CountableFromOk(q1);
    ReceiveInternalStep(q1, idx, i);
    var (r, out) := ReceiveInternal(q1, idx);
    if out.Got? && out.idx == i {
      ReleaseAfterBeat(q.streams[i], q1.streams[i], r.streams[i], out.frame);
    }
  }

  lemma ReceiveInternalStep(q: Queue, idx: int, i: nat)
    requires InBounds(q) && StreamsOk(q) && AllCountable(q) && idx < |q.streams| && i < |q.streams|
    ensures var (r, out) := ReceiveInternal(q, idx);
            && r.streams[i].frameSamples == q.streams[i].frameSamples
            && (if out.Got? && out.idx == i then ReleaseStep(q.streams[i], r.streams[i], out.frame)
                else r.streams[i] == q.streams[i])
  {
    hide ReleaseStep, Releasable;
    var (r, out) := ReceiveInternal(q, idx);
    if out.Got? {
      ReceiveForStep(q, out.idx, i);
      ReceiveForBuffers(q, out.idx);
    }
  }

  lemma StepStream(q: Queue, op: Op, i: nat)
    requires Basic(q) && Legal(q, op) && i < |q.streams|
    ensures var (r, e) := Step(q, op);
            && StreamStep(q.streams[i], r.streams[i], e, i)
            && (op != FrameSize(i, if op.FrameSize? then op.size else 0) ==>
                  r.streams[i].frameSamples == q.streams[i].frameSamples)
  {
    hide StreamsOk, Receive, ReleaseStep, SendFrame, AllCountable, FinishStream;
    match op
    case Send(j, f) =>
      if q.streams[j].finished {
        SendRefused(q, j, f);
      } else {
        SendFrameBuffers(q, j, f);
      }
    case Finish(j) =>
    case Recv(idx) =>
      CountableFromOk(q);
      ReceiveStreams(q, idx, i);
    case Limit(j, frames) =>
    case FrameSize(j, size) =>
  }

  // ---- conservation ----

  function SentSamples(es: seq<Event>, i: nat): seq<int> {
    if es == [] then [] else (if Gives(es[0], i) then es[0].frame.samples else []) + SentSamples(es[1..], i)
  }

  function OutSamples(es: seq<Event>, i: nat): seq<int> {
    if es == [] then [] else (if Takes(es[0], i) then es[0].frame.samples else []) + OutSamples(es[1..], i)
  }

  lemma StepSamples(a: Stream, b: Stream, e: Event, i: nat)
    requires StreamStep(a, b, e, i)
    ensures (if Takes(e, i) then e.frame.samples else []) + Samples(b.fifo)
         == Samples(a.fifo) + (if Gives(e, i) then e.frame.samples else [])
  {
    if Takes(e, i) {
      TakeOutputSplits(a.(finished := b.finished, headTs := b.headTs));
    } else if Gives(e, i) {
      SamplesAppend(a.fifo, Normalise(e.frame));
    }
  }

  /** Over every run, the samples a stream has put out followed by those still queued are the
      samples queued at the start followed by those sent, in order; and the counter of queued
      samples is exact. */
  lemma {:induction false} SampleConservation(q: Queue, ops: seq<Op>, i: nat)
    requires Basic(q) && LegalRun(q, ops) && i < |q.streams|
    ensures var (r, es) := Run(q, ops);
            && OutSamples(es, i) + Samples(r.streams[i].fifo) == Samples(q.streams[i].fifo) + SentSamples(es, i)
            && r.streams[i].samplesQueued == |Samples(r.streams[i].fifo)|
    decreases |ops|
  {
    hide InBounds, Step, StreamStep, Samples;
    if ops == [] {
      assert StreamOk(q.streams[i]);
      SamplesLength(q.streams[i].fifo);
    } else {
      StepBasic(q, ops[0]);
      var (q1, e) := Step(q, ops[0]);
      StepStream(q, ops[0], i);
      StepSamples(q.streams[i], q1.streams[i], e, i);
      SampleConservation(q1, ops[1..], i);
      var (r, es) := Run(q1, ops[1..]);
      assert Run(q, ops).1[1..] == es;
      Shift(if Takes(e, i) then e.frame.samples else [], Samples(q1.streams[i].fifo), OutSamples(es, i),
            Samples(r.streams[i].fifo), Samples(q.streams[i].fifo),
            if Gives(e, i) then e.frame.samples else [], SentSamples(es, i));
    }
  }

  lemma Shift<T>(o: seq<T>, mid: seq<T>, outs: seq<T>, end: seq<T>, start: seq<T>, g: seq<T>, sent: seq<T>)
    requires o + mid == start + g
    requires outs + end == mid + sent
    ensures (o + outs) + end == start + (g + sent)
  {
    calc {
      (o + outs) + end;
      o + (outs + end);
      o + (mid + sent);
      (o + mid) + sent;
      (start + g) + sent;
      start + (g + sent);
    }
  }

  function SentFrames(es: seq<Event>, i: nat): seq<Frame> {
    if es == [] then [] else (if Gives(es[0], i) then [Normalise(es[0].frame)] else []) + SentFrames(es[1..], i)
  }

  function OutFrames(es: seq<Event>, i: nat): seq<Frame> {
    if es == [] then [] else (if Takes(es[0], i) then [es[0].frame] else []) + OutFrames(es[1..], i)
  }

  predicate SizeKept(ops: seq<Op>, i: nat) {
    forall k :: 0 <= k < |ops| ==> !(ops[k].FrameSize? && ops[k].i == i)
  }

  /** Without a fixed frame size, whole frames pass through unchanged and in order. */
  lemma {:induction false} FrameConservation(q: Queue, ops: seq<Op>, i: nat)
    requires Basic(q) && LegalRun(q, ops) && i < |q.streams|
    requires SizeKept(ops, i) && q.streams[i].frameSamples == 0
    ensures var (r, es) := Run(q, ops);
            OutFrames(es, i) + r.streams[i].fifo == q.streams[i].fifo + SentFrames(es, i)
    decreases |ops|
  {
    hide InBounds, Step;
    if ops != [] {
      StepBasic(q, ops[0]);
      var (q1, e) := Step(q, ops[0]);
      StepStream(q, ops[0], i);
      FrameConservation(q1, ops[1..], i);
      var (r, es) := Run(q1, ops[1..]);
      assert Run(q, ops).1[1..] == es;
      Shift(if Takes(e, i) then [e.frame] else [], q1.streams[i].fifo, OutFrames(es, i),
            r.streams[i].fifo, q.streams[i].fifo,
            if Gives(e, i) then [Normalise(e.frame)] else [], SentFrames(es, i));
    }
  }

  // ---- end of stream ----

  /** Nothing will come out of stream i any more. */
  ghost predicate Dead(q: Queue, i: nat)
    requires InBounds(q) && i < |q.streams|
  {
    q.streams[i].finished && (q.streams[i].fifo == [] || (q.finished && !Releasable(q, i)))
  }

  lemma {:induction false} ReceiveFromEof(q: Queue, k: nat, eofs: nat)
    requires InBounds(q) && AllCountable(q) && k <= |q.streams| && eofs <= k
    requires ReceiveFrom(q, k, eofs).1.Eof?
    ensures forall j :: k <= j < |q.streams| ==> ReceiveFor(q, j).1.Eof?
    ensures eofs == k
    decreases |q.streams| - k
  {
    hide ReceiveFor;
    if k < |q.streams| {
      var r := ReceiveFor(q, k);
      ReceiveFromEof(q, k + 1, if r.1.Eof? then eofs + 1 else eofs);
    }
  }

  lemma EofIsDead(q: Queue, i: nat)
    requires InBounds(q) && AllCountable(q) && FlagOk(q) && i < |q.streams| && ReceiveFor(q, i).1.Eof?
    ensures Dead(q, i)
  {
  }

  lemma InternalEofIsDead(q: Queue, idx: int, i: nat)
    requires InBounds(q) && AllCountable(q) && FlagOk(q) && idx < |q.streams| && ReceiveInternal(q, idx).1.Eof?
    requires i < |q.streams| && (idx < 0 || idx == i)
    ensures Dead(q, i)
  {
    hide Dead, ReceiveFor;
    if idx < 0 {
      ReceiveFromEof(q, 0, 0);
    }
    EofIsDead(q, i);
  }

  lemma StepEofIsDead(q: Queue, op: Op, i: nat)
    requires Basic(q) && FlagOk(q) && Legal(q, op) && i < |q.streams|
    requires Step(q, op).1.AtEof? && (Step(q, op).1.idx < 0 || Step(q, op).1.idx == i)
    ensures InBounds(Step(q, op).0) && Dead(Step(q, op).0, i)
  {
    hide StreamsOk, AllCountable, ReceiveInternal, Dead;
    var idx := op.idx;
    CountableFromOk(q);
    if ReceiveInternal(q, idx).1.Eof? {
      InternalEofIsDead(q, idx, i);
    } else {
      var q1 := Heartbeat(q, idx).0;
      HeartbeatFlag(q, idx);
      OnlyHeadsKeepsBuffers(q, q1);
      CountableFromOk(q1);
      InternalEofIsDead(q1, idx, i);
    }
  }

  lemma {:induction false} BeatIdle(q: Queue, s: int, ts: int, k: nat)
    requires InBounds(q) && 0 <= s < |q.streams| && k <= |q.streams| && AllFinished(q.streams)
    ensures Beat(q, s, ts, k) == q
    decreases |q.streams| - k
  {
    if k < |q.streams| {
      BeatIdle(q, s, ts, k + 1);
    }
  }

  /** When all streams have finished, no operation moves a head. */
  lemma FinishedHeads(q: Queue, op: Op, k: nat)
    requires Basic(q) && Legal(q, op) && AllFinished(q.streams) && k < |q.streams|
    ensures var a, b := q.streams[k], Step(q, op).0.streams[k];
            b.headTs == a.headTs && b.tb == a.tb && b.finished
  {
    hide StreamsOk, AllCountable, Releasable, TakeSamples, SampleTicks;
    match op
    case Send(j, f) => SendRefused(q, j, f);
    case Finish(j) => FinishedFinish(q, j);
    case Recv(idx) =>
      CountableFromOk(q);
      IdleHeartbeat(q, idx);
    case Limit(j, frames) => FinishedFinish(SetStream(q, j, q.streams[j].(framesMax := frames)), j);
    case FrameSize(j, size) =>
  }

  lemma FinishedFinish(q: Queue, i: int)
    requires InBounds(q) && 0 <= i < |q.streams| && AllFinished(q.streams)
    ensures FinishStream(q, i).streams == q.streams
  {
    hide Instant;
  }

  lemma FinishStreamHead(q: Queue, i: int)
    requires InBounds(q) && 0 <= i < |q.streams|
    ensures FinishStream(q, i).head == q.head
  {
  }

  lemma AcceptNothing(q: Queue, op: Op)
    requires Basic(q) && Legal(q, op) && AllFinished(q.streams)
    ensures Step(q, op).0.head == q.head
  {
    hide StreamsOk, AllCountable, ReceiveInternal, Releasable, FinishStream;
    match op
    case Send(j, f) => SendRefused(q, j, f);
    case Finish(j) => FinishStreamHead(q, j);
    case Recv(idx) =>
      CountableFromOk(q);
      IdleHeartbeat(q, idx);
      InternalHead(q, idx);
    case Limit(j, frames) =>
      FinishStreamHead(SetStream(q, j, q.streams[j].(framesMax := frames)), j);
    case FrameSize(j, size) =>
  }

  lemma IdleHeartbeat(q: Queue, idx: int)
    requires InBounds(q) && idx < |q.streams| && AllFinished(q.streams)
    ensures Heartbeat(q, idx).0 == q
  {
    if Heartbeat(q, idx).1 {
      var s := Checked(q, idx);
      BeatIdle(q, s, TailTs(q.streams[s].fifo) + 1, 0);
    }
  }

  lemma InternalHead(q: Queue, idx: int)
    requires InBounds(q) && AllCountable(q) && idx < |q.streams|
    ensures ReceiveInternal(q, idx).0.head == q.head
  {
  }

  /** After all streams have finished, a frame that cannot be released is never released. */
  lemma NotReleased(q: Queue, op: Op, i: nat)
    requires Basic(q) && FlagOk(q) && Legal(q, op) && i < |q.streams| && q.finished && !Releasable(q, i)
    ensures !Takes(Step(q, op).1, i)
  {
    hide StreamsOk, AllCountable, Releasable, FinishStream, SendFrame;
    if op.Recv? {
      CountableFromOk(q);
      IdleHeartbeat(q, op.idx);
    }
  }

  /** Finished and drained. */
  predicate Done(st: Stream) {
    st.finished && st.fifo == []
  }

  lemma DoneStays(q: Queue, op: Op, i: nat)
    requires Basic(q) && Legal(q, op) && i < |q.streams| && Done(q.streams[i])
    ensures !Takes(Step(q, op).1, i) && Done(Step(q, op).0.streams[i])
  {
    hide Step, StreamsOk, InBounds;
    StepStream(q, op, i);
    StepCounters(q, op, i);
    StepAccepts(q, op, i);
  }

  lemma {:induction false} DoneRun(q: Queue, ops: seq<Op>, i: nat)
    requires Basic(q) && LegalRun(q, ops) && i < |q.streams| && Done(q.streams[i])
    ensures OutFrames(Run(q, ops).1, i) == [] && Done(Run(q, ops).0.streams[i])
    ensures forall k :: 0 <= k < |ops| ==> !Takes(Run(q, ops).1[k], i)
    decreases |ops|
  {
    hide InBounds, StreamsOk, Step;
    if ops != [] {
      DoneStays(q, ops[0], i);
      StepBasic(q, ops[0]);
      var q1 := Step(q, ops[0]).0;
      DoneRun(q1, ops[1..], i);
      assert Run(q, ops).1[1..] == Run(q1, ops[1..]).1;
    }
  }

  lemma HeadIndex(q: Queue)
    requires InBounds(q)
    ensures q.head < |q.streams|
  {
  }

  lemma SameLimiting(q: Queue, op: Op)
    requires Basic(q) && Legal(q, op)
    ensures Step(q, op).0.haveLimiting == q.haveLimiting
  {
    hide StreamsOk, AllCountable, Releasable, TakeSamples, SampleTicks, FinishStream, UpdateTs;
  }

  lemma FinishedForGood(q: Queue, op: Op)
    requires Basic(q) && Legal(q, op) && AllFinished(q.streams) && q.finished
    ensures Step(q, op).0.finished
  {
    hide StreamsOk, AllCountable, Releasable, TakeSamples, SampleTicks;
    match op
    case Send(j, f) => SendRefused(q, j, f);
    case Finish(j) =>
    case Recv(idx) =>
      CountableFromOk(q);
      IdleHeartbeat(q, idx);
    case Limit(j, frames) =>
    case FrameSize(j, size) =>
  }

  lemma KeptBuffer(q: Queue, op: Op, i: nat)
    requires Basic(q) && Legal(q, op) && i < |q.streams| && AllFinished(q.streams)
    requires !(op.FrameSize? && op.i == i) && !Takes(Step(q, op).1, i)
    ensures SameBuffer(q.streams[i], Step(q, op).0.streams[i])
  {
    hide StreamsOk, AllCountable, FinishStream, Receive;
    match op
    case Send(j, f) => SendRefused(q, j, f);
    case Finish(j) =>
    case Recv(idx) =>
      CountableFromOk(q);
      ReceiveStreams(q, idx, i);
    case Limit(j, frames) =>
    case FrameSize(j, size) =>
  }

  // ---- a new frame size after the end ----

  /** Whether frame size `size` would let stream i release a frame as the queue stands. */
  ghost predicate Revives(q: Queue, i: nat, size: nat)
    requires InBounds(q) && i < |q.streams|
  {
    Releasable(SetStream(q, i, q.streams[i].(frameSamples := size)), i)
  }

  /** What a caller of sq_frame_samples has to look at: the end of the first queued frame, cut to that
      size or to what is queued, against the head of the queue. */
  lemma RevivesIff(q: Queue, i: nat, size: nat)
    requires InBounds(q) && i < |q.streams| && q.streams[i].finished && q.streams[i].samplesQueued >= 0
    ensures var st := q.streams[i];
            var n := if st.samplesQueued < size then st.samplesQueued else size;
            Revives(q, i, size) <==>
              && st.fifo != []
              && var end := FrameEnd(st.fifo[0], n);
                 || end == NOPTS || !q.haveLimiting
                 || (q.head >= 0 && Instant(end, st.tb) <= HeadTime(q.streams[q.head]))
  {
    hide Instant, Rescale;
  }

  /** The new frame sizes of stream i in a run. */
  ghost predicate NoRevival(q: Queue, ops: seq<Op>, i: nat)
    requires InBounds(q) && i < |q.streams|
  {
    forall k :: 0 <= k < |ops| && ops[k].FrameSize? && ops[k].i == i ==> !Revives(q, i, ops[k].size)
  }

  /** All that a release looks at but the frame size. */
  ghost predicate SameButSize(q: Queue, r: Queue, i: nat) {
    && InBounds(q) && InBounds(r) && i < |q.streams| == |r.streams|
    && r.haveLimiting == q.haveLimiting && r.head == q.head
    && r.streams[i].fifo == q.streams[i].fifo && r.streams[i].samplesQueued == q.streams[i].samplesQueued
    && r.streams[i].tb == q.streams[i].tb && r.streams[i].finished == q.streams[i].finished
    && r.streams[i].headTs == q.streams[i].headTs
    && (q.head >= 0 ==> HeadTime(r.streams[q.head]) == HeadTime(q.streams[q.head]))
  }

  lemma SameRevival(q: Queue, r: Queue, i: nat, size: nat)
    requires SameButSize(q, r, i)
    ensures Revives(r, i, size) <==> Revives(q, i, size)
  {
    hide Instant, Rescale;
  }

  /** When all streams have finished and stream i is not taken from, nothing else changes for it. */
  lemma FinishedStep(q: Queue, op: Op, i: nat)
    requires Basic(q) && FlagOk(q) && Legal(q, op) && i < |q.streams| && q.finished && !Takes(Step(q, op).1, i)
    ensures SameButSize(q, Step(q, op).0, i) && Step(q, op).0.finished
    ensures !(op.FrameSize? && op.i == i) ==> Step(q, op).0.streams[i].frameSamples == q.streams[i].frameSamples
  {
    hide Step, StreamsOk, InBounds;
    StepBasic(q, op);
    AcceptNothing(q, op);
    SameLimiting(q, op);
    FinishedHeads(q, op, i);
    HeadIndex(q);
    if q.head >= 0 {
      FinishedHeads(q, op, q.head);
    }
    FinishedForGood(q, op);
    FinishedBuffer(q, op, i);
  }

  lemma FinishedBuffer(q: Queue, op: Op, i: nat)
    requires Basic(q) && Legal(q, op) && i < |q.streams| && AllFinished(q.streams) && !Takes(Step(q, op).1, i)
    ensures var a, b := q.streams[i], Step(q, op).0.streams[i];
            && b.fifo == a.fifo && b.samplesQueued == a.samplesQueued
            && (!(op.FrameSize? && op.i == i) ==> b.frameSamples == a.frameSamples)
  {
    if op.FrameSize? && op.i == i {
      hide InBounds, StreamsOk;
    } else {
      hide InBounds, StreamsOk, Step;
      KeptBuffer(q, op, i);
    }
  }

  lemma OwnSize(q: Queue, i: nat)
    requires InBounds(q) && i < |q.streams|
    ensures Revives(q, i, q.streams[i].frameSamples) <==> Releasable(q, i)
  {
    assert q.streams[i].(frameSamples := q.streams[i].frameSamples) == q.streams[i];
    assert q.streams[i := q.streams[i]] == q.streams;
  }

  /** A stream with frames left behind stays dead under every operation but a reviving size. */
  lemma LeftBehindStays(q: Queue, op: Op, i: nat)
    requires Basic(q) && FlagOk(q) && Legal(q, op) && i < |q.streams| && q.finished && !Releasable(q, i)
    requires op.FrameSize? && op.i == i ==> !Revives(q, i, op.size)
    ensures !Takes(Step(q, op).1, i)
    ensures Basic(Step(q, op).0) && FlagOk(Step(q, op).0) && SameButSize(q, Step(q, op).0, i) && Step(q, op).0.finished
    ensures !Releasable(Step(q, op).0, i)
  {
    hide Step, StreamsOk, InBounds, Releasable, Revives;
    StepBasic(q, op);
    StepFlag(q, op);
    NotReleased(q, op, i);
    FinishedStep(q, op, i);
    var r := Step(q, op).0;
    OwnSize(q, i);
    OwnSize(r, i);
    SameRevival(q, r, i, r.streams[i].frameSamples);
    if op.FrameSize? && op.i == i {
      NewSize(q, op, i);
    }
  }

  lemma NewSize(q: Queue, op: Op, i: nat)
    requires Basic(q) && Legal(q, op) && op.FrameSize? && op.i == i && i < |q.streams|
    ensures Step(q, op).0.streams[i].frameSamples == op.size
  {
    hide InBounds, StreamsOk;
  }

  /** No operation brings a dead stream back but a new frame size that revives it. */
  lemma DeadStays(q: Queue, op: Op, i: nat)
    requires Basic(q) && FlagOk(q) && Legal(q, op) && i < |q.streams| && Dead(q, i)
    requires op.FrameSize? && op.i == i ==> !Revives(q, i, op.size)
    ensures !Takes(Step(q, op).1, i)
    ensures Basic(Step(q, op).0) && FlagOk(Step(q, op).0) && Dead(Step(q, op).0, i)
    ensures forall size: nat :: Revives(Step(q, op).0, i, size) <==> Revives(q, i, size)
  {
    hide StreamsOk, InBounds, Step, FlagOk, Releasable, Revives;
    StepBasic(q, op);
    var r := Step(q, op).0;
    if Done(q.streams[i]) {
      StepFlag(q, op);
      DoneStays(q, op, i);
      forall size: nat
        ensures Revives(r, i, size) <==> Revives(q, i, size)
      {
        NothingToRevive(q, i, size);
        NothingToRevive(r, i, size);
      }
    } else {
      LeftBehindStays(q, op, i);
      forall size: nat
        ensures Revives(r, i, size) <==> Revives(q, i, size)
      {
        SameRevival(q, r, i, size);
      }
    }
  }

  lemma NothingToRevive(q: Queue, i: nat, size: nat)
    requires InBounds(q) && i < |q.streams| && q.streams[i].fifo == []
    ensures !Revives(q, i, size)
  {
  }

  /** A dead stream yields nothing more while no new frame size revives it. */
  lemma {:induction false} DeadRun(q: Queue, ops: seq<Op>, i: nat)
    requires Basic(q) && FlagOk(q) && LegalRun(q, ops) && i < |q.streams| && Dead(q, i) && NoRevival(q, ops, i)
    ensures forall k :: 0 <= k < |ops| ==> !Takes(Run(q, ops).1[k], i)
    decreases |ops|
  {
    hide InBounds, StreamsOk, Step, FlagOk, Dead, Revives;
    if ops != [] {
      DeadStays(q, ops[0], i);
      var q1 := Step(q, ops[0]).0;
      DeadRun(q1, ops[1..], i);
      assert Run(q, ops).1[1..] == Run(q1, ops[1..]).1;
    }
  }

  /** And a reviving one makes the next receive yield a frame of it. */
  lemma ResizeReleases(q: Queue, i: nat, size: nat)
    requires Basic(q) && i < |q.streams| && Revives(q, i, size)
    ensures var ops := [FrameSize(i, size)] + ([Recv(i)] + []);
            LegalRun(q, ops) && Takes(Run(q, ops).1[1], i)
  {
    hide StreamsOk, Releasable;
    var r := SetStream(q, i, q.streams[i].(frameSamples := size));
    StepBasic(q, FrameSize(i, size));
    assert Step(q, FrameSize(i, size)) == (r, Quiet);
    ReceiveReleasable(r, i);
    var (r', e) := Step(r, Recv(i));
    StepBasic(r, Recv(i));
    hide Step, Basic, InBounds, LegalRun, Run;
    NoOps(r');
    Prepend(r, Recv(i), r', e, []);
    Prepend(q, FrameSize(i, size), r, Quiet, [Recv(i)] + []);
  }

  lemma ReceiveReleasable(q: Queue, i: nat)
    requires Basic(q) && i < |q.streams| && Releasable(q, i)
    ensures Takes(Step(q, Recv(i)).1, i)
  {
    hide StreamsOk, Releasable;
    CountableFromOk(q);
  }

  predicate SizesIn(ops: seq<Op>, i: nat, sizes: set<nat>) {
    forall k :: 0 <= k < |ops| && ops[k].FrameSize? && ops[k].i == i ==> ops[k].size in sizes
  }

  ghost predicate YieldsNothing(q: Queue, ops: seq<Op>, i: nat)
    requires Basic(q) && LegalRun(q, ops)
  {
    forall k :: 0 <= k < |ops| ==> !Takes(Run(q, ops).1[k], i)
  }

  /** The end of a stream is final, over all runs whose new frame sizes for it come from a given set,
      exactly if none of that set revives it. */
  lemma FinalIff(q: Queue, i: nat, sizes: set<nat>)
    requires Basic(q) && FlagOk(q) && i < |q.streams| && Dead(q, i)
    ensures (forall ops: seq<Op> :: LegalRun(q, ops) && SizesIn(ops, i, sizes) ==> YieldsNothing(q, ops, i))
       <==> forall size :: size in sizes ==> !Revives(q, i, size)
  {
    hide InBounds, StreamsOk, FlagOk, LegalRun, Dead, Revives, Run;
    if forall size :: size in sizes ==> !Revives(q, i, size) {
      forall ops: seq<Op> | LegalRun(q, ops) && SizesIn(ops, i, sizes)
        ensures YieldsNothing(q, ops, i)
      {
        DeadRun(q, ops, i);
      }
    } else {
      var size :| size in sizes && Revives(q, i, size);
      var ops := [FrameSize(i, size)] + ([Recv(i)] + []);
      ResizeReleases(q, i, size);
      assert SizesIn(ops, i, sizes) && !YieldsNothing(q, ops, i);
    }
  }

  /** The queue after the first n operations. */
  ghost function After(q: Queue, ops: seq<Op>, n: nat): (r: Queue)
    requires Basic(q) && LegalRun(q, ops) && n <= |ops|
    ensures Basic(r) && |r.streams| == |q.streams|
    decreases n
  {
    if n == 0 then q
    else
      StepBasic(q, ops[0]);
      After(Step(q, ops[0]).0, ops[1..], n - 1)
  }

  /** Once a receive has reported the end of stream i, or of all streams, no later call yields
      a frame of stream i, unless a new frame size revives it. */
  lemma {:induction false} EofIsFinal(q: Queue, ops: seq<Op>, i: nat, a: nat, b: nat)
    requires Basic(q) && FlagOk(q) && LegalRun(q, ops) && i < |q.streams| && a < b < |ops|
    requires NoRevival(After(q, ops, a + 1), ops[a + 1..], i)
    requires Run(q, ops).1[a].AtEof? && (Run(q, ops).1[a].idx < 0 || Run(q, ops).1[a].idx == i)
    ensures !Takes(Run(q, ops).1[b], i)
    decreases |ops|
  {
    hide InBounds, StreamsOk, Dead, Step, FlagOk, NoRevival;
    StepBasic(q, ops[0]);
    StepFlag(q, ops[0]);
    var q1 := Step(q, ops[0]).0;
    if a == 0 {
      StepEofIsDead(q, ops[0], i);
      assert After(q, ops, 1) == After(q1, ops[1..], 0) == q1;
      DeadRun(q1, ops[1..], i);
    } else {
      assert ops[1..][a..] == ops[a + 1..];
      EofIsFinal(q1, ops[1..], i, a - 1, b - 1);
    }
  }

  // ---- constant frame size ----

  predicate NoneEmpty(fifo: seq<Frame>) {
    forall k :: 0 <= k < |fifo| ==> fifo[k].samples != []
  }

  lemma {:induction false} TakeSamplesNoneEmpty(fifo: seq<Frame>, n: nat)
    requires n <= Total(fifo) && NoneEmpty(fifo)
    ensures NoneEmpty(TakeSamples(fifo, n).1)
    ensures n == Total(fifo) ==> TakeSamples(fifo, n).1 == []
    decreases |fifo|
  {
    if n != 0 && n >= |fifo[0].samples| {
      TakeSamplesNoneEmpty(fifo[1..], n - |fifo[0].samples|);
    }
  }

  predicate SendsNoneEmpty(ops: seq<Op>, i: nat) {
    forall k :: 0 <= k < |ops| ==> ops[k].Send? && ops[k].i == i ==> ops[k].frame.samples != []
  }

  /** A release either has the full frame size or empties a finished stream. */
  lemma ReleaseSize(a: Stream, b: Stream, f: Frame)
    requires ReleaseStep(a, b, f) && NoneEmpty(a.fifo) && a.frameSamples > 0
    ensures NoneEmpty(b.fifo) && 0 < |f.samples| <= a.frameSamples
    ensures |f.samples| == a.frameSamples || (b.finished && b.fifo == [])
  {
    var a' := a.(finished := b.finished, headTs := b.headTs);
    TakeOutputSplits(a');
    TakeSamplesNoneEmpty(a'.fifo, WantSamples(a'));
  }

  /** Every output frame has exactly the frame size, except possibly the last one. */
  lemma {:induction false} Reframing(q: Queue, ops: seq<Op>, i: nat, k: nat)
    requires Basic(q) && LegalRun(q, ops) && i < |q.streams| && SizeKept(ops, i)
    requires q.streams[i].frameSamples > 0 && NoneEmpty(q.streams[i].fifo) && SendsNoneEmpty(ops, i)
    requires k < |OutFrames(Run(q, ops).1, i)|
    ensures var outs := OutFrames(Run(q, ops).1, i);
            && 0 < |outs[k].samples| <= q.streams[i].frameSamples
            && (k < |outs| - 1 ==> |outs[k].samples| == q.streams[i].frameSamples)
    decreases |ops|
  {
    hide InBounds, StreamsOk, Step, ReleaseStep;
    StepBasic(q, ops[0]);
    StepStream(q, ops[0], i);
    var (q1, e) := Step(q, ops[0]);
    var es := Run(q1, ops[1..]).1;
    assert Run(q, ops).1[1..] == es;
    if Takes(e, i) {
      ReleaseSize(q.streams[i], q1.streams[i], e.frame);
      if k == 0 {
        if q1.streams[i].finished && q1.streams[i].fifo == [] {
          DoneRun(q1, ops[1..], i);
        }
      } else {
        Reframing(q1, ops[1..], i, k - 1);
      }
    } else {
      GivenFrame(q, ops[0]);
      Reframing(q1, ops[1..], i, k);
    }
  }

  lemma GivenFrame(q: Queue, op: Op)
    requires Basic(q) && Legal(q, op)
    ensures var e := Step(q, op).1; e.Accepted? ==> op == Send(e.i, e.frame)
  {
    hide Basic, Receive, SendFrame, FinishStream;
  }

  // ---- timestamps of re-chunked audio ----

  /** Frames that follow each other without a gap from `start`, in ticks of one sample. */
  predicate Contiguous(fifo: seq<Frame>, start: int, rate: Pos) {
    fifo != [] ==>
      && fifo[0].pts == start && fifo[0].rate == rate && fifo[0].tb == Rational(1, rate)
      && Contiguous(fifo[1..], start + |fifo[0].samples|, rate)
  }

  lemma SampleTicksExact(f: Frame, n: nat)
    requires f.tb == Rational(1, f.rate)
    ensures SampleTicks(f, n) == n
  {
    RescaleSame(n, f.tb);
  }

  lemma {:induction false} ContiguousAppend(fifo: seq<Frame>, f: Frame, start: int, rate: Pos)
    requires Contiguous(fifo, start, rate)
    requires f.pts == start + Total(fifo) && f.rate == rate && f.tb == Rational(1, rate)
    ensures Contiguous(fifo + [f], start, rate)
  {
    if fifo == [] {
      assert fifo + [f] == [f];
    } else {
      ContiguousAppend(fifo[1..], f, start + |fifo[0].samples|, rate);
      assert (fifo + [f])[1..] == fifo[1..] + [f];
    }
  }

  lemma {:induction false} TakeSamplesContiguous(fifo: seq<Frame>, n: nat, start: int, rate: Pos)
    requires n <= Total(fifo) && Contiguous(fifo, start, rate)
    ensures Contiguous(TakeSamples(fifo, n).1, start + n, rate)
    decreases |fifo|
  {
    if n != 0 {
      if n < |fifo[0].samples| {
        SampleTicksExact(fifo[0], n);
        assert ([Trim(fifo[0], n)] + fifo[1..])[1..] == fifo[1..];
      } else {
        TakeSamplesContiguous(fifo[1..], n - |fifo[0].samples|, start + |fifo[0].samples|, rate);
      }
    }
  }

  /** The frames accepted for stream i follow each other without a gap from `next`. */
  predicate ContiguousInput(es: seq<Event>, i: nat, next: int, rate: Pos) {
    es != [] ==>
      if Gives(es[0], i) then
        && es[0].frame.pts == next && es[0].frame.rate == rate && es[0].frame.tb == Rational(1, rate)
        && ContiguousInput(es[1..], i, next + |es[0].frame.samples|, rate)
      else ContiguousInput(es[1..], i, next, rate)
  }

  lemma ReleaseContiguous(a: Stream, b: Stream, f: Frame, start: int, rate: Pos)
    requires ReleaseStep(a, b, f) && Contiguous(a.fifo, start, rate)
    ensures f.pts == start && Contiguous(b.fifo, start + |f.samples|, rate)
    ensures Total(a.fifo) == |f.samples| + Total(b.fifo)
  {
    var a' := a.(finished := b.finished, headTs := b.headTs);
    TakeOutputSplits(a');
    SamplesLength(a.fifo);
    SamplesLength(b.fifo);
    TakeSamplesContiguous(a'.fifo, WantSamples(a'), start, rate);
  }

  /** With contiguous input in time base 1/rate, the k-th output frame starts exactly k frame
      sizes after the first queued sample. */
  lemma {:induction false} ReframedStarts(q: Queue, ops: seq<Op>, i: nat, k: nat, start: int, rate: Pos)
    requires Basic(q) && LegalRun(q, ops) && i < |q.streams| && SizeKept(ops, i)
    requires q.streams[i].frameSamples > 0 && NoneEmpty(q.streams[i].fifo) && SendsNoneEmpty(ops, i)
    requires Contiguous(q.streams[i].fifo, start, rate)
    requires ContiguousInput(Run(q, ops).1, i, start + Total(q.streams[i].fifo), rate)
    requires k < |OutFrames(Run(q, ops).1, i)|
    ensures OutFrames(Run(q, ops).1, i)[k].pts == start + k * q.streams[i].frameSamples
    decreases |ops|
  {
    hide InBounds, StreamsOk, Step, ReleaseStep, Rescale;
    StepBasic(q, ops[0]);
    StepStream(q, ops[0], i);
    var (q1, e) := Step(q, ops[0]);
    var es := Run(q1, ops[1..]).1;
    assert Run(q, ops).1[1..] == es;
    var n := q.streams[i].frameSamples;
    if Takes(e, i) {
      ReleaseSize(q.streams[i], q1.streams[i], e.frame);
      ReleaseContiguous(q.streams[i], q1.streams[i], e.frame, start, rate);
      if k > 0 {
        if q1.streams[i].finished && q1.streams[i].fifo == [] {
          DoneRun(q1, ops[1..], i);
        }
        ReframedStarts(q1, ops[1..], i, k - 1, start + n, rate);
        assert start + n + (k - 1) * n == start + k * n;
      }
    } else {
      GivenFrame(q, ops[0]);
      if Gives(e, i) {
        ContiguousAppend(q.streams[i].fifo, Normalise(e.frame), start, rate);
        SamplesAppend(q.streams[i].fifo, Normalise(e.frame));
      }
      ReframedStarts(q1, ops[1..], i, k, start, rate);
    }
  }
}
