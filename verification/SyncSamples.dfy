/** The contents of the FIFOs: sample counts, frame durations and the audio re-chunker
(fftools/sync_queue.c:369-397, 409-430, 448-522). */
module SyncSamples {
  import opened Time
  import opened SyncModel

  /** All samples of a FIFO, in order. */
  function Samples(fifo: seq<Frame>): seq<int> {
    if fifo == [] then [] else fifo[0].samples + Samples(fifo[1..])
  }

  lemma {:induction false} SamplesLength(fifo: seq<Frame>)
    ensures |Samples(fifo)| == Total(fifo)
  {
    if fifo != [] {
      SamplesLength(fifo[1..]);
    }
  }

  lemma {:induction false} SamplesAppend(a: seq<Frame>, f: Frame)
    ensures Samples(a + [f]) == Samples(a) + f.samples
    ensures Total(a + [f]) == Total(a) + |f.samples|
  {
    if a == [] {
      assert [f][1..] == [];
      assert a + [f] == [f];
    } else {
      SamplesAppend(a[1..], f);
      assert (a + [f])[1..] == a[1..] + [f];
    }
  }

  /** An audio frame's duration is that of its samples. */
  predicate Normal(f: Frame) {
    |f.samples| != 0 ==> f.duration == SampleTicks(f, |f.samples|)
  }

  predicate FifoOk(fifo: seq<Frame>, tb: Rational) {
    forall k :: 0 <= k < |fifo| ==> fifo[k].tb == tb && Normal(fifo[k])
  }

  predicate StreamOk(st: Stream) {
    Countable(st) && FifoOk(st.fifo, st.tb)
  }

  predicate StreamsOk(q: Queue) {
    forall k :: 0 <= k < |q.streams| ==> StreamOk(q.streams[k])
  }

  /** Taking n samples splits the queued samples after the n-th, whether a queued frame is
      cut, used up exactly or joined with the next ones. */
  lemma {:induction false} TakeSamplesSplits(fifo: seq<Frame>, n: nat, tb: Rational)
    requires n <= Total(fifo) && FifoOk(fifo, tb)
    ensures var (taken, left) := TakeSamples(fifo, n);
            && |taken| == n
            && taken + Samples(left) == Samples(fifo)
            && Total(left) == Total(fifo) - n
            && FifoOk(left, tb)
    decreases |fifo|
  {
    if n != 0 {
      var f := fifo[0];
      if n < |f.samples| {
        var left := [Trim(f, n)] + fifo[1..];
        assert left[1..] == fifo[1..];
        assert f.samples == f.samples[..n] + f.samples[n..];
        assert f.samples[..n] + (f.samples[n..] + Samples(fifo[1..])) == f.samples + Samples(fifo[1..]);
      } else {
        TakeSamplesSplits(fifo[1..], n - |f.samples|, tb);
        var (rest, left) := TakeSamples(fifo[1..], n - |f.samples|);
        assert f.samples + rest + Samples(left) == f.samples + (rest + Samples(left));
      }
    }
  }

  /** One output frame: the samples it carries leave the FIFO, in order; its end is the
      timestamp the release test looked at. */
  lemma TakeOutputSplits(st: Stream)
    requires StreamOk(st) && CanOutput(st)
    ensures 0 <= WantSamples(st) <= st.samplesQueued
    ensures var (f, st') := TakeOutput(st);
            && f.samples + Samples(st'.fifo) == Samples(st.fifo)
            && StreamOk(st')
            && st' == st.(fifo := st'.fifo, samplesQueued := st'.samplesQueued)
            && f.tb == st.tb && f.pts == st.fifo[0].pts && Normal(f)
            && FrameEnd(f, 0) == FrameEnd(st.fifo[0], WantSamples(st))
            && (WantSamples(st) != 0 ==> |f.samples| == WantSamples(st))
  {
    var n := WantSamples(st);
    SamplesLength(st.fifo);
    if n != 0 {
      TakeSamplesSplits(st.fifo, n, st.tb);
    }
  }

  /** All but its samples and their length an output frame has from the first frame queued; without a
      frame size it is that frame. */
  lemma TakeOutputFrame(st: Stream)
    requires StreamOk(st) && CanOutput(st)
    ensures 0 <= WantSamples(st) <= st.samplesQueued
    ensures var f := TakeOutput(st).0;
            && f == st.fifo[0].(samples := f.samples, duration := f.duration)
            && (st.frameSamples == 0 ==> f == st.fifo[0] && TakeOutput(st).1.fifo == st.fifo[1..])
  {
    TakeOutputSplits(st);
    hide Rescale, TakeSamples;
  }

  /** What is left begins behind the n-th sample: with a whole frame, or with the rest of one. */
  lemma {:induction false} TakeSamplesLeaves(fifo: seq<Frame>, n: nat) returns (k: nat, m: nat)
    requires n <= Total(fifo)
    ensures k <= |fifo| && Total(fifo[..k]) + m == n
    ensures m > 0 ==> k < |fifo| && m < |fifo[k].samples|
    ensures TakeSamples(fifo, n).1 == if m == 0 then fifo[k..] else [Trim(fifo[k], m)] + fifo[k + 1..]
    decreases |fifo|
  {
    hide Trim;
    if n == 0 {
      k, m := 0, 0;
      assert fifo[0..] == fifo;
    } else if n < |fifo[0].samples| {
      k, m := 0, n;
    } else {
      k, m := TakeSamplesLeaves(fifo[1..], n - |fifo[0].samples|);
      TotalFront(fifo, k);
      assert fifo[1..][k..] == fifo[k + 1..];
      if m > 0 {
        assert fifo[1..][k + 1..] == fifo[k + 2..] && fifo[1..][k] == fifo[k + 1];
      }
      k := k + 1;
    }
  }

  lemma TotalFront(fifo: seq<Frame>, k: nat)
    requires k < |fifo|
    ensures Total(fifo[..k + 1]) == |fifo[0].samples| + Total(fifo[1..][..k])
  {
    assert fifo[..k + 1][1..] == fifo[1..][..k];
  }

  /** Cutting a queued frame by reference and copying its samples leave the same FIFO and
      hand out the same samples. */
  lemma CutMatchesCopy(fifo: seq<Frame>, n: nat)
    requires fifo != [] && 0 < n < |fifo[0].samples|
    ensures n <= Total(fifo)
    ensures TakeSamples(fifo, n) == (fifo[0].samples[..n], [Trim(fifo[0], n)] + fifo[1..])
  {
  }

  lemma CountableFromOk(q: Queue)
    requires StreamsOk(q)
    ensures AllCountable(q)
  {
    forall k | 0 <= k < |q.streams|
      ensures Countable(q.streams[k])
    {
      assert StreamOk(q.streams[k]);
    }
  }

  /** Operations on heads leave the buffers alone. */
  lemma OnlyHeadsKeepsBuffers(q: Queue, r: Queue)
    requires StreamsOk(q) && OnlyHeads(q, r)
    ensures StreamsOk(r)
    ensures forall k :: 0 <= k < |q.streams| ==> SameBuffer(q.streams[k], r.streams[k])
  {
    forall k | 0 <= k < |q.streams|
      ensures StreamOk(r.streams[k]) && SameBuffer(q.streams[k], r.streams[k])
    {
      assert StreamOk(q.streams[k]);
    }
  }

  predicate SameBuffer(a: Stream, b: Stream) {
    && b.fifo == a.fifo && b.samplesQueued == a.samplesQueued
    && b.frameSamples == a.frameSamples && b.tb == a.tb
  }

  ghost predicate OthersKept(q: Queue, r: Queue, i: int) {
    && |r.streams| == |q.streams|
    && forall k :: 0 <= k < |q.streams| && k != i ==> SameBuffer(q.streams[k], r.streams[k])
  }

  lemma NormaliseNormal(f: Frame)
    ensures Normal(Normalise(f)) && Normalise(f) == f.(duration := Normalise(f).duration)
    ensures f.samples == [] ==> Normalise(f) == f
  {
  }

  lemma AcceptBuffers(q: Queue, i: int, f: Frame)
    requires InBounds(q) && StreamsOk(q) && 0 <= i < |q.streams| && MaySend(q.streams[i], f)
    ensures var r := Accept(q, i, f);
            && OthersKept(q, r, i) && StreamsOk(r)
            && r.streams[i].fifo == q.streams[i].fifo + [Normalise(f)]
            && r.streams[i].tb == f.tb
            && r.streams[i].frameSamples == q.streams[i].frameSamples
  {
    hide UpdateTs, Normalise, StreamOk, Rescale;
    var q1 := SetStream(q, i, Enqueue(q.streams[i], f));
    var q2 := UpdateTs(q1, i, FrameEnd(Normalise(f), 0));
    var r := Accept(q, i, f);
    assert StreamOk(q.streams[i]);
    SentStreamOk(q.streams[i], f, r.streams[i]);
    forall k | 0 <= k < |q.streams| && k != i
      ensures StreamOk(r.streams[k]) && SameBuffer(q.streams[k], r.streams[k])
    {
      assert StreamOk(q.streams[k]);
      assert q1.streams[k] == q.streams[k];
      assert r.streams[k] == q2.streams[k];
      SameBufferOk(q.streams[k], r.streams[k]);
    }
  }

  lemma SameBufferOk(a: Stream, b: Stream)
    requires StreamOk(a) && SameBuffer(a, b)
    ensures StreamOk(b)
  {
  }

  /** sq_send appends the frame to its own FIFO and touches no other buffer. */
  lemma SendFrameBuffers(q: Queue, i: int, f: Frame)
    requires InBounds(q) && StreamsOk(q) && 0 <= i < |q.streams|
    requires !q.streams[i].finished && MaySend(q.streams[i], f)
    ensures var r := SendFrame(q, i, f);
            && OthersKept(q, r, i) && StreamsOk(r)
            && r.streams[i].fifo == q.streams[i].fifo + [Normalise(f)]
            && r.streams[i].tb == f.tb
            && r.streams[i].frameSamples == q.streams[i].frameSamples
  {
    hide Accept, FinishStream, Normalise, StreamOk, Rescale;
    AcceptBuffers(q, i, f);
    var r := Accept(q, i, f);
    OnlyHeadsKeepsBuffers(r, FinishStream(r, i));
    SameBufferChain(q, r, FinishStream(r, i), i);
  }

  lemma SameBufferChain(p: Queue, q: Queue, r: Queue, i: int)
    requires OthersKept(p, q, i) && |r.streams| == |q.streams|
    requires forall k :: 0 <= k < |q.streams| ==> SameBuffer(q.streams[k], r.streams[k])
    ensures OthersKept(p, r, i)
  {
    forall k | 0 <= k < |p.streams| && k != i
      ensures SameBuffer(p.streams[k], r.streams[k])
    {
      assert SameBuffer(p.streams[k], q.streams[k]) && SameBuffer(q.streams[k], r.streams[k]);
    }
  }

  lemma SentStreamOk(st: Stream, f: Frame, r: Stream)
    requires StreamOk(st) && MaySend(st, f)
    requires r.fifo == st.fifo + [Normalise(f)] && r.tb == f.tb
    requires r.samplesQueued == st.samplesQueued + |f.samples|
    ensures StreamOk(r)
  {
    SamplesAppend(st.fifo, Normalise(f));
    NormaliseNormal(f);
    forall k | 0 <= k < |r.fifo|
      ensures r.fifo[k].tb == r.tb && Normal(r.fifo[k])
    {
      if k < |st.fifo| {
        assert r.fifo[k] == st.fifo[k] && st.tb == f.tb;
      }
    }
  }

  lemma OutputPossible(q: Queue, i: int)
    requires InBounds(q) && 0 <= i < |q.streams| && Releasable(q, i)
    ensures CanOutput(q.streams[i])
  {
  }

  /** A release takes the front of one FIFO and touches no other buffer. */
  lemma ReceiveForBuffers(q: Queue, i: int)
    requires InBounds(q) && StreamsOk(q) && AllCountable(q) && 0 <= i < |q.streams| && Releasable(q, i)
    ensures var (r, out) := ReceiveFor(q, i);
            && StreamsOk(r) && OthersKept(q, r, i)
            && out.frame.samples + Samples(r.streams[i].fifo) == Samples(q.streams[i].fifo)
            && r.streams[i].frameSamples == q.streams[i].frameSamples
  {
    var st := q.streams[i];
    assert StreamOk(st);
    TakeOutputSplits(st);
    var r := ReceiveFor(q, i).0;
    forall k | 0 <= k < |q.streams|
      ensures StreamOk(r.streams[k])
    {
      assert StreamOk(q.streams[k]);
    }
  }
}
