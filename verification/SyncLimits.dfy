/** The frame limit of the sync queue, over whole runs (fftools/sync_queue.c:391-404, 649-659). */
module SyncLimits {
  import opened Arithmetic
  import opened SyncModel
  import opened SyncSamples
  import opened SyncRuns
  import opened SyncCounters
  import opened SyncDelivery

  /** In every reachable state a stream that has sent its limit of frames is finished. */
  lemma {:induction false} LimitFinishes(q: Queue, ops: seq<Op>, i: nat)
    requires Basic(q) && LegalRun(q, ops) && i < |q.streams| && WithinLimit(q.streams[i])
    ensures WithinLimit(Run(q, ops).0.streams[i])
    decreases |ops|
  {
    hide Basic, Step;
    if ops != [] {
      StepBasic(q, ops[0]);
      StepCounters(q, ops[0], i);
      LimitFinishes(Step(q, ops[0]).0, ops[1..], i);
    }
  }

  /** Neither the limit nor the frame size of stream i is set. */
  predicate SettingsKept(ops: seq<Op>, i: nat) {
    ops != [] ==> !((ops[0].Limit? || ops[0].FrameSize?) && ops[0].i == i) && SettingsKept(ops[1..], i)
  }

  /** Without a frame size, frames_sent counts the frames accepted, of which there are never more
      than the limit. */
  lemma {:induction false} LimitObeyed(q: Queue, ops: seq<Op>, i: nat)
    requires Basic(q) && LegalRun(q, ops) && i < |q.streams| && WithinLimit(q.streams[i])
    requires SettingsKept(ops, i) && q.streams[i].frameSamples == 0
    ensures var (r, es) := Run(q, ops);
            var sent := |SentFrames(es, i)|;
            && r.streams[i].framesSent == q.streams[i].framesSent + sent
            && (sent > 0 ==> q.streams[i].framesSent + sent <= q.streams[i].framesMax)
    decreases |ops|
  {
    hide Basic, Step;
    if ops != [] {
      StepBasic(q, ops[0]);
      var (q1, e) := Step(q, ops[0]);
      StepCounters(q, ops[0], i);
      StepAccepts(q, ops[0], i);
      LimitObeyed(q1, ops[1..], i);
      assert Run(q, ops).1[1..] == Run(q1, ops[1..]).1;
    }
  }

  predicate WholeFramesCounted(st: Stream) {
    st.frameSamples > 0 && st.framesSent == st.samplesSent / st.frameSamples
  }

  /** samples_sent counts the samples accepted; with a constant frame size from the start,
      frames_sent is the number of whole output frames in them, so that an unfinished stream has
      less than the limit. */
  lemma {:induction false} SamplesCounted(q: Queue, ops: seq<Op>, i: nat)
    requires Basic(q) && LegalRun(q, ops) && i < |q.streams|
    requires SizeKept(ops, i) && WholeFramesCounted(q.streams[i])
    ensures var (r, es) := Run(q, ops);
            var st := r.streams[i];
            && st.frameSamples == q.streams[i].frameSamples
            && st.samplesSent == q.streams[i].samplesSent + |SentSamples(es, i)|
            && WholeFramesCounted(st)
    decreases |ops|
  {
    hide Basic, Step;
    if ops != [] {
      StepBasic(q, ops[0]);
      var (q1, e) := Step(q, ops[0]);
      StepCounters(q, ops[0], i);
      SamplesCounted(q1, ops[1..], i);
      assert Run(q, ops).1[1..] == Run(q1, ops[1..]).1;
    }
  }

  // ---- the frame limit with a frame size ----

  /** The samples of the last frame accepted. */
  function LastSent(es: seq<Event>, i: nat): nat {
    if es == [] then 0
    else if SentFrames(es[1..], i) == [] && Gives(es[0], i) then |es[0].frame.samples|
    else LastSent(es[1..], i)
  }

  /** The limit counts whole output frames in the samples sent, so it is overshot by the last frame
      at most: the samples before that one are fewer than the limit allows. */
  lemma {:induction false} SamplesLimited(q: Queue, ops: seq<Op>, i: nat)
    requires Basic(q) && LegalRun(q, ops) && i < |q.streams|
    requires SettingsKept(ops, i) && WholeFramesCounted(q.streams[i]) && WithinLimit(q.streams[i])
    ensures var es := Run(q, ops).1;
            var st := q.streams[i];
            SentFrames(es, i) != [] ==>
              st.samplesSent + |SentSamples(es, i)| - LastSent(es, i) < st.framesMax * st.frameSamples
    decreases |ops|
  {
    hide Basic, Step;
    if ops != [] {
      StepBasic(q, ops[0]);
      var (q1, e) := Step(q, ops[0]);
      var a := q.streams[i];
      StepCounters(q, ops[0], i);
      StepAccepts(q, ops[0], i);
      SamplesLimited(q1, ops[1..], i);
      assert Run(q, ops).1[1..] == Run(q1, ops[1..]).1;
      if Gives(e, i) {
        DivFloor(a.samplesSent, a.frameSamples, a.framesMax);
        if SentFrames(Run(q1, ops[1..]).1, i) == [] {
          NoneSent(Run(q1, ops[1..]).1, i);
        }
      }
    }
  }

  lemma {:induction false} NoneSent(es: seq<Event>, i: nat)
    requires SentFrames(es, i) == []
    ensures SentSamples(es, i) == []
  {
    if es != [] {
      NoneSent(es[1..], i);
    }
  }

  lemma {:induction false} OutTotal(es: seq<Event>, i: nat)
    ensures |OutSamples(es, i)| == Total(OutFrames(es, i))
  {
    if es != [] {
      OutTotal(es[1..], i);
      if Takes(es[0], i) {
        assert ([es[0].frame] + OutFrames(es[1..], i))[1..] == OutFrames(es[1..], i);
      } else {
        assert [] + OutFrames(es[1..], i) == OutFrames(es[1..], i);
      }
    }
  }

  /** Full frames, but for the last. */
  predicate Chunks(outs: seq<Frame>, size: Pos) {
    forall k :: 0 <= k < |outs| ==> 0 < |outs[k].samples| <= size && (k < |outs| - 1 ==> |outs[k].samples| == size)
  }

  lemma {:induction false} ChunkCount(outs: seq<Frame>, size: Pos)
    requires Chunks(outs, size)
    ensures |outs| == (Total(outs) + size - 1) / size
  {
    if outs == [] {
      DivUnique(size - 1, 0, size - 1, size);
    } else if |outs| == 1 {
      assert Total(outs) == |outs[0].samples| + Total(outs[1..]) && Total(outs[1..]) == 0;
      DivUnique(Total(outs) + size - 1, 1, Total(outs) - 1, size);
    } else {
      ChunkCount(outs[1..], size);
      var n := Total(outs[1..]) + size - 1;
      assert n == n / size * size + n % size;
      assert (n / size + 1) * size == n / size * size + size;
      DivUnique(n + size, n / size + 1, n % size, size);
    }
  }

  /** A stream that has been drained has put out one frame for each frame size sent, and one for
      what is left over. */
  lemma DrainedCount(q: Queue, ops: seq<Op>, i: nat)
    requires Basic(q) && LegalRun(q, ops) && i < |q.streams| && SizeKept(ops, i)
    requires q.streams[i].frameSamples > 0 && q.streams[i].fifo == [] && SendsNoneEmpty(ops, i)
    requires Run(q, ops).0.streams[i].fifo == []
    ensures var es := Run(q, ops).1;
            |OutFrames(es, i)| == (|SentSamples(es, i)| + q.streams[i].frameSamples - 1) / q.streams[i].frameSamples
  {
    hide Basic, LegalRun, Run;
    var es := Run(q, ops).1;
    SampleConservation(q, ops, i);
    OutTotal(es, i);
    forall k | 0 <= k < |OutFrames(es, i)|
      ensures var outs := OutFrames(es, i);
              && 0 < |outs[k].samples| <= q.streams[i].frameSamples
              && (k < |outs| - 1 ==> |outs[k].samples| == q.streams[i].frameSamples)
    {
      Reframing(q, ops, i, k);
    }
    ChunkCount(OutFrames(es, i), q.streams[i].frameSamples);
  }

  /** So no more frames come out than a limit allows exactly if no more samples were sent than fit in
      that many frames. */
  lemma LimitHoldsIff(q: Queue, ops: seq<Op>, i: nat, max: nat)
    requires Basic(q) && LegalRun(q, ops) && i < |q.streams| && SizeKept(ops, i)
    requires q.streams[i].frameSamples > 0 && q.streams[i].fifo == [] && SendsNoneEmpty(ops, i)
    requires Run(q, ops).0.streams[i].fifo == []
    ensures var es := Run(q, ops).1;
            |OutFrames(es, i)| <= max <==> |SentSamples(es, i)| <= max * q.streams[i].frameSamples
  {
    DrainedCount(q, ops, i);
    hide Basic, LegalRun, Run, OutFrames, SentSamples;
    CeilingAtMost(|SentSamples(Run(q, ops).1, i)|, q.streams[i].frameSamples, max);
  }

  lemma CeilingAtMost(n: nat, size: Pos, max: nat)
    ensures (n + size - 1) / size <= max <==> n <= max * size
  {
    DivFloor(n + size - 1, size, max + 1);
    assert (max + 1) * size == max * size + size;
  }
}
