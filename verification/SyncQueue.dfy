/** fftools/sync_queue.c with its loops and in-place updates. Every method is proved to
compute the function of `SyncModel` that says what it means. */
module SyncQueues {
  import opened Time
  import opened SyncModel
  import opened SyncSamples

  datatype SendResult = Queued | Ended

  class SyncQueue {
    var streams: seq<Stream>
    var finished: bool
    var headStream: int
    var headFinishedStream: int
    var haveLimiting: bool
    const bufSizeUs: int

    ghost function State(): Queue
      reads this
    {
      Queue(streams, finished, headStream, headFinishedStream, bufSizeUs, haveLimiting)
    }

    ghost predicate Valid()
      reads this
    {
      InBounds(State()) && StreamsOk(State()) && AllCountable(State())
    }

    constructor (bufSizeUs: int)
      ensures Valid() && State() == Queue([], false, -1, -1, bufSizeUs, false)
    {
      this.bufSizeUs := bufSizeUs;
      streams, finished, headStream, headFinishedStream, haveLimiting := [], false, -1, -1, false;
    }

    method AddStream(limiting: bool) returns (idx: nat)
      requires Valid()
      modifies this
      ensures Valid() && idx == |old(streams)|
      ensures State() == SyncModel.AddStream(old(State()), limiting)
    {
      idx := |streams|;
      streams := streams + [NewStream(limiting)];
      haveLimiting := haveLimiting || limiting;
      assert streams[idx].limiting == limiting;
      assert forall k :: 0 <= k < idx ==> streams[k] == old(streams)[k];
    }

    // ---- heads and finishing ----

    method FinishStream(i: nat)
      requires InBounds(State()) && i < |streams|
      modifies this
      ensures State() == SyncModel.FinishStream(old(State()), i)
    {
      ghost var q := State();
      streams := streams[i := streams[i].(finished := true)];
      ghost var s1 := streams;
      var st := streams[i];
      if st.limiting && HasTs(st) {
        if headFinishedStream >= 0 {
          var hd := streams[headFinishedStream];
          CompareIsOrder(st.headTs, st.tb, hd.headTs, hd.tb);
          if CompareTs(st.headTs, st.tb, hd.headTs, hd.tb) < 0 {
            headFinishedStream := i;
          }
        } else {
          headFinishedStream := i;
        }
        assert headFinishedStream == FinishedMark(q, i);
        MarkLoop();
      }
      var k := 0;
      while k < |streams|
        invariant 0 <= k <= |streams|
        invariant forall j :: 0 <= j < k ==> streams[j].finished
      {
        if !streams[k].finished {
          return;
        }
        k := k + 1;
      }
      finished := true;
    }

    /** The first loop of finish_stream. */
    method MarkLoop()
      requires 0 <= headFinishedStream < |streams|
      modifies this`streams
      ensures streams == MarkBeyond(old(streams), headFinishedStream)
    {
      ghost var s1 := streams;
      var mark := headFinishedStream;
      ghost var marked := MarkBeyond(s1, mark);
      for k := 0 to |streams|
        invariant |streams| == |s1| && streams[mark] == s1[mark]
        invariant forall j :: 0 <= j < k ==> streams[j] == marked[j]
        invariant forall j :: k <= j < |s1| ==> streams[j] == s1[j]
      {
        var st, st1 := streams[mark], streams[k];
        CompareIsOrder(st.headTs, st.tb, st1.headTs, st1.tb);
        if k != mark && HasTs(st1) && CompareTs(st.headTs, st.tb, st1.headTs, st1.tb) <= 0 {
          streams := streams[k := st1.(finished := true)];
        }
      }
    }

    method QueueHeadUpdate()
      requires InBounds(State()) && haveLimiting
      modifies this`headStream
      ensures State() == HeadUpdate(old(State()))
    {
      ghost var q := State();
      if headStream < 0 {
        var firstLimiting := |streams|;
        for k := 0 to |streams|
          invariant firstLimiting == if FirstLimiting(streams, 0) < k then FirstLimiting(streams, 0) else |streams|
          invariant forall j :: 0 <= j < k && streams[j].limiting ==> HasTs(streams[j])
        {
          if streams[k].limiting {
            if !HasTs(streams[k]) {
              return;
            }
            if firstLimiting == |streams| {
              firstLimiting := k;
            }
          }
        }
        headStream := firstLimiting;
      }
      ghost var start := headStream;
      for k := 0 to |streams|
        invariant 0 <= headStream < |streams|
        invariant ScanHead(streams, start, 0) == ScanHead(streams, headStream, k)
      {
        var stHead, stOther := streams[headStream], streams[k];
        CompareIsOrder(stOther.headTs, stOther.tb, stHead.headTs, stHead.tb);
        if stOther.limiting && HasTs(stOther) && CompareTs(stOther.headTs, stOther.tb, stHead.headTs, stHead.tb) < 0 {
          headStream := k;
        }
      }
    }

    method StreamUpdateTs(i: nat, ts: int)
      requires InBounds(State()) && i < |streams|
      modifies this
      ensures State() == UpdateTs(old(State()), i, ts)
    {
      ghost var q := State();
      var st := streams[i];
      if ts == NOPTS || (HasTs(st) && st.headTs >= ts) {
        return;
      }
      streams := streams[i := st.(headTs := ts)];
      assert State() == SetHead(q, i, ts);
      if headFinishedStream >= 0 {
        var hd := streams[headFinishedStream];
        CompareIsOrder(hd.headTs, hd.tb, ts, st.tb);
        if CompareTs(hd.headTs, hd.tb, ts, st.tb) <= 0 {
          FinishStream(i);
        }
      }
      if st.limiting && (headStream < 0 || headStream == i) {
        assert streams[i].limiting;
        QueueHeadUpdate();
      }
    }

    /** Returns whether fake heartbeats were sent. */
    method OverflowHeartbeat(idx: int) returns (fired: bool)
      requires InBounds(State()) && idx < |streams|
      modifies this
      ensures (State(), fired) == Heartbeat(old(State()), idx)
    {
      hide Beat, Rescale, Instant, MostAhead, InBounds, TailTs;
      ghost var q := State();
      var s := idx;
      if s < 0 {
        s := FindMostAhead();
        if s < 0 {
          return false;
        }
      }
      assert s == Checked(q, idx);
      var tailTs := FindTail(streams[s].fifo);
      if tailTs == NOPTS || tailTs >= streams[s].headTs
         || Rescale(streams[s].headTs - tailTs, streams[s].tb, MICROSECONDS) < bufSizeUs {
        return false;
      }
      BeatLoop(s, tailTs + 1);
      return true;
    }

    method FindMostAhead() returns (s: int)
      ensures s == MostAhead(streams, -1, 0)
    {
      s := -1;
      for k := 0 to |streams|
        invariant -1 <= s < |streams|
        invariant MostAhead(streams, -1, 0) == MostAhead(streams, s, k)
      {
        var st := streams[k];
        if HasTs(st) {
          if s < 0 {
            s := k;
          } else {
            CompareIsOrder(streams[s].headTs, streams[s].tb, st.headTs, st.tb);
            if CompareTs(streams[s].headTs, streams[s].tb, st.headTs, st.tb) < 0 {
              s := k;
            }
          }
        }
      }
    }

    static method FindTail(fifo: seq<Frame>) returns (ts: int)
      ensures ts == TailTs(fifo)
    {
      ts := NOPTS;
      var k := 0;
      while ts == NOPTS && k < |fifo|
        invariant 0 <= k <= |fifo|
        invariant TailTs(fifo) == if ts == NOPTS then TailTs(fifo[k..]) else ts
      {
        ts := FrameEnd(fifo[k], 0);
        k := k + 1;
      }
    }

    /** The last loop of overflow_heartbeat; ts is one tick past the tail. */
    method BeatLoop(s: nat, ts: int)
      requires InBounds(State()) && s < |streams|
      modifies this
      ensures State() == Beat(old(State()), s, ts, 0)
    {
      hide UpdateTs, Lags, BeatTs;
      ghost var q := State();
      for k := 0 to |streams|
        invariant InBounds(State()) && OnlyHeads(q, State())
        invariant Beat(q, s, ts, 0) == Beat(State(), s, ts, k)
      {
        BeatStream(s, ts, k);
      }
    }

    method BeatStream(s: nat, ts: int, k: nat)
      requires InBounds(State()) && s < |streams| && k < |streams|
      modifies this
      ensures var q := old(State());
              State() == if Lags(q, s, ts, k) then UpdateTs(q, k, BeatTs(q.streams[k], ts, q.streams[s].tb)) else q
    {
      hide Instant, Rescale, UpdateTs;
      var st, st1 := streams[s], streams[k];
      CompareIsOrder(ts, st.tb, st1.headTs, st1.tb);
      if k != s && !st1.finished && !(HasTs(st1) && CompareTs(ts, st.tb, st1.headTs, st1.tb) <= 0) {
        var beat := Rescale(ts, st.tb, st1.tb);
        if HasTs(st1) && beat < st1.headTs + 1 {
          beat := st1.headTs + 1;
        }
        StreamUpdateTs(k, beat);
      }
    }

    // ---- sending ----

    /** sq_send of a NULL frame. */
    method SendEof(i: nat)
      requires Valid() && i < |streams|
      modifies this
      ensures Valid() && State() == SyncModel.FinishStream(old(State()), i)
    {
      ghost var q := State();
      FinishStream(i);
      OnlyHeadsKeepsBuffers(q, State());
      CountableFromOk(State());
    }

    method Send(i: nat, frame: Frame) returns (r: SendResult)
      requires Valid() && i < |streams|
      requires !streams[i].finished ==> MaySend(streams[i], frame)
      modifies this
      ensures Valid() && State() == SendFrame(old(State()), i, frame)
      ensures r.Ended? <==> old(streams)[i].finished
    {
      hide Accept, SyncModel.FinishStream, StreamsOk, MaySend;
      ghost var q := State();
      if streams[i].finished {
        return Ended;
      }
      AcceptFrame(i, frame);
      if streams[i].framesSent >= streams[i].framesMax {
        FinishStream(i);
      }
      SendFrameBuffers(q, i, frame);
      CountableFromOk(State());
      return Queued;
    }

    method AcceptFrame(i: nat, frame: Frame)
      requires InBounds(State()) && i < |streams| && MaySend(streams[i], frame)
      modifies this
      ensures State() == Accept(old(State()), i, frame)
    {
      hide UpdateTs, Rescale;
      ghost var q := State();
      TbUpdateStream(i, frame.tb);
      var dst := frame;
      var nbSamples := |dst.samples|;
      if nbSamples != 0 {
        dst := dst.(duration := SampleTicks(dst, nbSamples));
      }
      var ts := FrameEnd(dst, 0);
      streams := streams[i := streams[i].(fifo := streams[i].fifo + [dst])];
      assert State() == SetStream(q, i, Enqueue(q.streams[i], frame));
      StreamUpdateTs(i, ts);
      CountFrame(i, nbSamples);
    }

    method CountFrame(i: nat, nbSamples: nat)
      requires i < |streams|
      modifies this`streams
      ensures streams == old(streams)[i := Count(old(streams)[i], nbSamples)]
    {
      var st := streams[i];
      st := st.(samplesQueued := st.samplesQueued + nbSamples, samplesSent := st.samplesSent + nbSamples);
      if st.frameSamples != 0 {
        st := st.(framesSent := st.samplesSent / st.frameSamples);
      } else {
        st := st.(framesSent := st.framesSent + 1);
      }
      streams := streams[i := st];
    }

    method TbUpdateStream(i: nat, tb: Rational)
      requires InBounds(State()) && i < |streams|
      requires streams[i].tb == tb || streams[i].fifo == []
      modifies this`streams
      ensures streams == old(streams)[i := TbUpdate(old(streams)[i], tb)]
    {
      var st := streams[i];
      if tb.num == st.tb.num && tb.den == st.tb.den {
        return;
      }
      if HasTs(st) {
        st := st.(headTs := Rescale(st.headTs, st.tb, tb));
      }
      streams := streams[i := st.(tb := tb)];
    }

    method Limit(i: nat, frames: nat)
      requires Valid() && i < |streams|
      modifies this
      ensures Valid() && State() == LimitFrames(old(State()), i, frames)
    {
      ghost var q := State();
      streams := streams[i := streams[i].(framesMax := frames)];
      ghost var q1 := State();
      assert q1 == SetStream(q, i, q.streams[i].(framesMax := frames));
      assert StreamOk(q.streams[i]);
      assert StreamsOk(q1);
      if streams[i].framesSent >= frames {
        FinishStream(i);
        OnlyHeadsKeepsBuffers(q1, State());
      }
      CountableFromOk(State());
    }

    method SetFrameSamples(i: nat, size: nat)
      requires Valid() && i < |streams|
      modifies this
      ensures Valid() && State() == SetStream(old(State()), i, old(streams)[i].(frameSamples := size))
    {
      ghost var q := State();
      streams := streams[i := streams[i].(frameSamples := size)];
      assert State() == SetStream(q, i, q.streams[i].(frameSamples := size));
      assert StreamOk(q.streams[i]);
      assert StreamsOk(State());
      CountableFromOk(State());
    }

    // ---- receiving ----

    /** receive_samples: by reference when the first frame is long enough and aligned, by
        copying otherwise. Which one it is makes no difference to the result. */
    method ReceiveSamples(i: nat, n: nat, isAligned: Frame -> bool) returns (dst: Frame)
      requires Valid() && i < |streams| && 0 < n <= streams[i].samplesQueued && streams[i].fifo != []
      modifies this`streams
      ensures var st := old(streams)[i];
              var (samples, left) := TakeSamples(st.fifo, n);
              && dst == st.fifo[0].(samples := samples, duration := SampleTicks(st.fifo[0], n))
              && streams == old(streams)[i := st.(fifo := left, samplesQueued := st.samplesQueued - n)]
    {
      ghost var st0 := streams[i];
      assert StreamOk(st0);
      var src := streams[i].fifo[0];
      if |src.samples| > n && isAligned(src) {
        dst := src.(samples := src.samples[..n]);
        var st := streams[i];
        streams := streams[i := st.(fifo := [Trim(src, n)] + st.fifo[1..], samplesQueued := st.samplesQueued - n)];
        CutMatchesCopy(st0.fifo, n);
      } else {
        var samples := CopySamples(i, n);
        dst := src.(samples := samples);
      }
      dst := dst.(duration := SampleTicks(dst, n));
    }

    /** The copying loop of receive_samples, joining and cutting queued frames. */
    method CopySamples(i: nat, n: nat) returns (samples: seq<int>)
      requires i < |streams| && n <= streams[i].samplesQueued && Countable(streams[i])
      modifies this`streams
      ensures var st := old(streams)[i];
              var (taken, left) := TakeSamples(st.fifo, n);
              samples == taken && streams == old(streams)[i := st.(fifo := left, samplesQueued := st.samplesQueued - n)]
    {
      hide TakeSamples, Total, Trim;
      ghost var st0 := streams[i];
      ghost var all := TakeSamples(st0.fifo, n);
      samples := [];
      while |samples| < n
        invariant |samples| <= n
        invariant |streams| == |old(streams)|
        invariant streams == old(streams)[i := st0.(fifo := streams[i].fifo, samplesQueued := streams[i].samplesQueued)]
        invariant streams[i].samplesQueued == st0.samplesQueued - |samples| == Total(streams[i].fifo)
        invariant n - |samples| <= Total(streams[i].fifo)
        invariant all.0 == samples + TakeSamples(streams[i].fifo, n - |samples|).0
        invariant all.1 == TakeSamples(streams[i].fifo, n - |samples|).1
        decreases n - |samples|, |streams[i].fifo|
      {
        var st := streams[i];
        SomethingQueued(st.fifo);
        var f := st.fifo[0];
        var toCopy := if n - |samples| < |f.samples| then n - |samples| else |f.samples|;
        CopyStep(st.fifo, n - |samples|, toCopy, samples);
        samples := samples + f.samples[..toCopy];
        var left := st.fifo[1..];
        if toCopy < |f.samples| {
          left := [Trim(f, toCopy)] + left;
        }
        streams := streams[i := st.(fifo := left, samplesQueued := st.samplesQueued - toCopy)];
      }
      NothingToTake(streams[i].fifo);
    }

    static lemma SomethingQueued(fifo: seq<Frame>)
      ensures Total(fifo) > 0 ==> fifo != []
    {
    }

    static lemma NothingToTake(fifo: seq<Frame>)
      ensures TakeSamples(fifo, 0) == ([], fifo)
    {
    }

    /** One turn of the copying loop advances TakeSamples by one frame. */
    static lemma CopyStep(fifo: seq<Frame>, n: nat, toCopy: nat, samples: seq<int>)
      requires 0 < n <= Total(fifo)
      requires toCopy == if n < |fifo[0].samples| then n else |fifo[0].samples|
      ensures var left := if toCopy < |fifo[0].samples| then [Trim(fifo[0], toCopy)] + fifo[1..] else fifo[1..];
              && Total(left) == Total(fifo) - toCopy
              && n - toCopy <= Total(left)
              && samples + TakeSamples(fifo, n).0
                   == (samples + fifo[0].samples[..toCopy]) + TakeSamples(left, n - toCopy).0
              && TakeSamples(fifo, n).1 == TakeSamples(left, n - toCopy).1
    {
      hide Rescale;
      var f := fifo[0];
      assert f.samples[..|f.samples|] == f.samples;
      if toCopy < |f.samples| {
        var left := [Trim(f, toCopy)] + fifo[1..];
        assert left[1..] == fifo[1..];
        assert TakeSamples(left, 0) == ([], left);
      }
    }

    method ReceiveForStream(i: nat, isAligned: Frame -> bool) returns (out: Outcome)
      requires Valid() && i < |streams|
      modifies this`streams
      ensures Valid() && (State(), out) == ReceiveFor(old(State()), i)
    {
      ghost var q := State();
      var st := streams[i];
      assert StreamOk(st);
      hide Releasable, StreamsOk, StreamOk, TakeOutput;
      var releasable, nbSamples := TestRelease(i);
      if releasable {
        OutputPossible(q, i);
        TakeOutputSplits(st);
        var frame := TakeFrame(i, nbSamples, isAligned);
        assert State() == SetStream(q, i, TakeOutput(st).1);
        ReceiveForBuffers(q, i);
        CountableFromOk(State());
        return Got(i, frame);
      }
      out := if finished || (st.finished && st.fifo == []) then Eof else Again;
    }

    /** The conditions of receive_for_stream: enough queued, and not past the queue head. */
    method TestRelease(i: nat) returns (releasable: bool, nbSamples: int)
      requires Valid() && i < |streams|
      ensures releasable <==> Releasable(State(), i)
      ensures releasable ==> nbSamples == WantSamples(streams[i])
    {
      hide Instant, Rescale;
      var st := streams[i];
      assert StreamOk(st);
      releasable, nbSamples := false, st.frameSamples;
      if st.fifo != [] && (st.frameSamples <= st.samplesQueued || st.finished) {
        if st.finished && st.samplesQueued < nbSamples {
          nbSamples := st.samplesQueued;
        }
        var ts := FrameEnd(st.fifo[0], nbSamples);
        var cmp := 1;
        if ts != NOPTS && headStream >= 0 {
          var stHead := streams[headStream];
          CompareIsOrder(ts, st.tb, stHead.headTs, stHead.tb);
          cmp := CompareTs(ts, st.tb, stHead.headTs, stHead.tb);
        }
        releasable := cmp <= 0 || ts == NOPTS || !haveLimiting;
      }
    }

    /** The frame itself: moved out whole if it fits and is aligned, re-chunked otherwise. */
    method TakeFrame(i: nat, nbSamples: nat, isAligned: Frame -> bool) returns (frame: Frame)
      requires Valid() && i < |streams| && CanOutput(streams[i]) && nbSamples == WantSamples(streams[i])
      modifies this`streams
      ensures nbSamples <= old(streams)[i].samplesQueued && Countable(old(streams)[i])
      ensures frame == TakeOutput(old(streams)[i]).0
      ensures streams == old(streams)[i := TakeOutput(old(streams)[i]).1]
    {
      var st := streams[i];
      assert StreamOk(st);
      hide Rescale, InBounds, AllCountable, StreamsOk, StreamOk;
      TakeOutputSplits(st);
      CountableFifo(st);
      var peek := st.fifo[0];
      if nbSamples != 0 && (nbSamples != |peek.samples| || !isAligned(peek)) {
        frame := ReceiveSamples(i, nbSamples, isAligned);
      } else {
        TakeWhole(st);
        streams := streams[i := st.(fifo := st.fifo[1..], samplesQueued := st.samplesQueued - |peek.samples|)];
        frame := peek;
      }
    }

    static lemma CountableFifo(st: Stream)
      requires StreamOk(st)
      ensures Countable(st)
    {
    }

    /** A frame that leaves whole is what TakeOutput says; the counter covers it. */
    static lemma TakeWhole(st: Stream)
      requires StreamOk(st) && CanOutput(st) && 0 <= WantSamples(st) <= st.samplesQueued
      requires WantSamples(st) == 0 || WantSamples(st) == |st.fifo[0].samples|
      ensures st.samplesQueued >= |st.fifo[0].samples|
      ensures TakeOutput(st)
           == (st.fifo[0], st.(fifo := st.fifo[1..], samplesQueued := st.samplesQueued - |st.fifo[0].samples|))
    {
      hide Rescale;
      WholeFrame(st.fifo, WantSamples(st));
      assert Normal(st.fifo[0]);
    }

    static lemma WholeFrame(fifo: seq<Frame>, n: nat)
      requires fifo != []
      ensures n != 0 && n == |fifo[0].samples| ==> n <= Total(fifo) && TakeSamples(fifo, n) == (fifo[0].samples, fifo[1..])
    {
      if n != 0 && n == |fifo[0].samples| {
        assert TakeSamples(fifo[1..], 0) == ([], fifo[1..]);
        assert fifo[0].samples + [] == fifo[0].samples;
      }
    }

    method ReceiveAny(idx: int, isAligned: Frame -> bool) returns (out: Outcome)
      requires Valid() && idx < |streams|
      modifies this`streams
      ensures Valid() && (State(), out) == ReceiveInternal(old(State()), idx)
    {
      hide ReceiveFor;
      ghost var q := State();
      if idx >= 0 {
        out := ReceiveForStream(idx, isAligned);
        return;
      }
      var nbEof := 0;
      var k := 0;
      while k < |streams|
        invariant 0 <= k <= |streams| && 0 <= nbEof
        invariant State() == q
        invariant ReceiveFrom(q, 0, 0) == ReceiveFrom(q, k, nbEof)
      {
        out := ReceiveForStream(k, isAligned);
        if out.Got? {
          return;
        }
        if out.Eof? {
          nbEof := nbEof + 1;
        }
        k := k + 1;
      }
      out := if nbEof == |streams| then Eof else Again;
    }

    /** sq_receive: one retry if the queue overflowed and heartbeats were sent. */
    method Receive(idx: int, isAligned: Frame -> bool) returns (out: Outcome)
      requires Valid() && idx < |streams|
      modifies this
      ensures Valid() && (State(), out) == SyncModel.Receive(old(State()), idx)
    {
      hide ReceiveInternal, Beat, Overflows, StreamsOk, AllCountable;
      ghost var q := State();
      out := ReceiveAny(idx, isAligned);
      if out.Again? {
        var fired := OverflowHeartbeat(idx);
        OnlyHeadsKeepsBuffers(q, State());
        CountableFromOk(State());
        if fired {
          out := ReceiveAny(idx, isAligned);
        }
      }
    }
  }
}
