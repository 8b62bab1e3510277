/** The counters and flags of the sync queue, operation by operation
(fftools/sync_queue.c:171-216, 391-404, 649-659). */
module SyncCounters {
  import opened Time
  import opened SyncModel
  import opened SyncSamples
  import opened SyncRuns

  predicate SameCounters(a: Stream, b: Stream) {
    && b.framesSent == a.framesSent && b.samplesSent == a.samplesSent && b.framesMax == a.framesMax
    && b.frameSamples == a.frameSamples && (a.finished ==> b.finished)
  }

  /** A stream that has sent its limit is finished. */
  predicate WithinLimit(st: Stream) {
    st.framesSent < st.framesMax || st.finished
  }

  predicate Counted(a: Stream, b: Stream, f: Frame) {
    && b.samplesSent == a.samplesSent + |f.samples|
    && b.framesSent == (if a.frameSamples != 0 then b.samplesSent / a.frameSamples else a.framesSent + 1)
    && b.framesMax == a.framesMax && b.frameSamples == a.frameSamples
    && WithinLimit(b)
  }

  lemma FinishCounters(q: Queue, j: int, i: nat)
    requires InBounds(q) && 0 <= j < |q.streams| && i < |q.streams|
    ensures SameCounters(q.streams[i], FinishStream(q, j).streams[i])
    ensures FinishStream(q, j).streams[j].finished
  {
    hide Instant;
  }

  lemma UpdateCounters(q: Queue, j: int, ts: int, i: nat)
    requires InBounds(q) && 0 <= j < |q.streams| && i < |q.streams|
    ensures SameCounters(q.streams[i], UpdateTs(q, j, ts).streams[i])
  {
    hide Instant, FinishStream;
    if !(ts == NOPTS || (HasTs(q.streams[j]) && q.streams[j].headTs >= ts)) {
      FinishCounters(SetHead(q, j, ts), j, i);
    }
  }

  lemma {:induction false} BeatCounters(q: Queue, s: int, ts: int, k: nat, i: nat)
    requires InBounds(q) && 0 <= s < |q.streams| && k <= |q.streams| && i < |q.streams|
    ensures SameCounters(q.streams[i], Beat(q, s, ts, k).streams[i])
    decreases |q.streams| - k
  {
    hide UpdateTs, Lags, BeatTs;
    if k < |q.streams| {
      if Lags(q, s, ts, k) {
        var beat := BeatTs(q.streams[k], ts, q.streams[s].tb);
        UpdateCounters(q, k, beat, i);
        BeatCounters(UpdateTs(q, k, beat), s, ts, k + 1, i);
      } else {
        BeatCounters(q, s, ts, k + 1, i);
      }
    }
  }

  lemma InternalCounters(q: Queue, idx: int, i: nat)
    requires InBounds(q) && AllCountable(q) && idx < |q.streams| && i < |q.streams|
    ensures SameCounters(q.streams[i], ReceiveInternal(q, idx).0.streams[i])
  {
    hide Releasable, TakeSamples, SampleTicks;
  }

  lemma ReceiveCounters(q: Queue, idx: int, i: nat)
    requires InBounds(q) && StreamsOk(q) && AllCountable(q) && idx < |q.streams| && i < |q.streams|
    ensures SameCounters(q.streams[i], Receive(q, idx).0.streams[i])
  {
    hide ReceiveInternal, Beat, Overflows, StreamsOk, AllCountable;
    InternalCounters(q, idx, i);
    var q1 := Heartbeat(q, idx).0;
    OnlyHeadsKeepsBuffers(q, q1);
    CountableFromOk(q1);
    InternalCounters(q1, idx, i);
    var s := Checked(q, idx);
    if s >= 0 {
      BeatCounters(q, s, TailTs(q.streams[s].fifo) + 1, 0, i);
    }
  }

  lemma AcceptCounters(q: Queue, j: int, f: Frame, i: nat)
    requires InBounds(q) && 0 <= j < |q.streams| && i < |q.streams|
    ensures var a, b := q.streams[i], Accept(q, j, f).streams[i];
            if i == j then
              && b.samplesSent == a.samplesSent + |f.samples|
              && b.framesSent == (if a.frameSamples != 0 then b.samplesSent / a.frameSamples else a.framesSent + 1)
              && b.framesMax == a.framesMax && b.frameSamples == a.frameSamples
            else SameCounters(a, b)
  {
    hide UpdateTs, Rescale;
    var q1 := SetStream(q, j, Enqueue(q.streams[j], f));
    UpdateCounters(q1, j, FrameEnd(Normalise(f), 0), i);
  }

  /** What an operation does to the counters of one stream. */
  lemma StepCounters(q: Queue, op: Op, i: nat)
    requires Basic(q) && Legal(q, op) && i < |q.streams|
    ensures var (r, e) := Step(q, op);
            var a, b := q.streams[i], r.streams[i];
            if Gives(e, i) then Counted(a, b, e.frame)
            else if op.Limit? && op.i == i then
              b.framesMax == op.frames && WithinLimit(b) && SameCounters(a, b.(framesMax := a.framesMax))
            else if op.FrameSize? && op.i == i then b == a.(frameSamples := op.size)
            else SameCounters(a, b)
  {
    hide StreamsOk, Receive, Accept, AllCountable, FinishStream;
    match op
    case Send(j, f) =>
      AcceptCounters(q, j, f, i);
      FinishCounters(Accept(q, j, f), j, i);
    case Finish(j) =>
      FinishCounters(q, j, i);
    case Recv(idx) =>
      CountableFromOk(q);
      ReceiveCounters(q, idx, i);
    case Limit(j, frames) =>
      var q1 := SetStream(q, j, q.streams[j].(framesMax := frames));
      FinishCounters(q1, j, i);
    case FrameSize(j, size) =>
  }

  lemma StepAccepts(q: Queue, op: Op, i: nat)
    requires Basic(q) && Legal(q, op)
    ensures Gives(Step(q, op).1, i) ==> i < |q.streams| && !q.streams[i].finished
  {
  }

  // ---- the finish flag of the queue ----

  /** The queue is only called finished when all its streams are. */
  predicate FlagOk(q: Queue) {
    q.finished ==> AllFinished(q.streams)
  }

  lemma FinishFlag(q: Queue, i: int)
    requires InBounds(q) && 0 <= i < |q.streams| && FlagOk(q)
    ensures FlagOk(FinishStream(q, i))
  {
    forall k | 0 <= k < |q.streams|
      ensures q.streams[k].finished ==> FinishStream(q, i).streams[k].finished
    {
      FinishCounters(q, i, k);
    }
  }

  lemma UpdateFlag(q: Queue, i: int, ts: int)
    requires InBounds(q) && 0 <= i < |q.streams| && FlagOk(q)
    ensures FlagOk(UpdateTs(q, i, ts))
  {
    hide Instant, FinishStream;
    if !(ts == NOPTS || (HasTs(q.streams[i]) && q.streams[i].headTs >= ts)) {
      FinishFlag(SetHead(q, i, ts), i);
    }
  }

  lemma {:induction false} BeatFlag(q: Queue, s: int, ts: int, k: nat)
    requires InBounds(q) && 0 <= s < |q.streams| && k <= |q.streams| && FlagOk(q)
    ensures FlagOk(Beat(q, s, ts, k))
    decreases |q.streams| - k
  {
    hide UpdateTs, Lags, BeatTs;
    if k < |q.streams| {
      if Lags(q, s, ts, k) {
        var beat := BeatTs(q.streams[k], ts, q.streams[s].tb);
        UpdateFlag(q, k, beat);
        BeatFlag(UpdateTs(q, k, beat), s, ts, k + 1);
      } else {
        BeatFlag(q, s, ts, k + 1);
      }
    }
  }

  lemma HeartbeatFlag(q: Queue, idx: int)
    requires InBounds(q) && idx < |q.streams| && FlagOk(q)
    ensures FlagOk(Heartbeat(q, idx).0)
  {
    hide Beat, Overflows;
    var s := Checked(q, idx);
    if s >= 0 {
      BeatFlag(q, s, TailTs(q.streams[s].fifo) + 1, 0);
    }
  }

  lemma InternalFlag(q: Queue, idx: int)
    requires InBounds(q) && AllCountable(q) && idx < |q.streams| && FlagOk(q)
    ensures FlagOk(ReceiveInternal(q, idx).0)
  {
    hide Releasable, TakeSamples, SampleTicks;
  }

  lemma StepFlag(q: Queue, op: Op)
    requires Basic(q) && Legal(q, op) && FlagOk(q)
    ensures FlagOk(Step(q, op).0)
  {
    hide StreamsOk, ReceiveInternal, Heartbeat, UpdateTs, AllCountable, FinishStream, Normalise;
    match op
    case Send(j, f) =>
      var q1 := SetStream(q, j, Enqueue(q.streams[j], f));
      UpdateFlag(q1, j, FrameEnd(Normalise(f), 0));
      UpdateCounters(q1, j, FrameEnd(Normalise(f), 0), j);
      FinishFlag(Accept(q, j, f), j);
    case Finish(j) => FinishFlag(q, j);
    case Recv(idx) =>
      CountableFromOk(q);
      InternalFlag(q, idx);
      HeartbeatFlag(q, idx);
      var q1 := Heartbeat(q, idx).0;
      OnlyHeadsKeepsBuffers(q, q1);
      CountableFromOk(q1);
      InternalFlag(q1, idx);
    case Limit(j, frames) =>
      FinishFlag(SetStream(q, j, q.streams[j].(framesMax := frames)), j);
    case FrameSize(j, size) =>
  }
}
