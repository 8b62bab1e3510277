/** The overflow heartbeat bounds what the sync queue buffers (fftools/sync_queue.c:277-341,
584-618). */
module SyncBuffering {
  import opened Arithmetic
  import opened Time
  import opened HeartbeatRounding
  import opened SyncModel
  import opened SyncHeads
  import opened SyncSamples
  import opened SyncRuns

  lemma BeatTsReaches(st: Stream, ts: int, tb: Rational)
    requires FineFor(ts, st.tb, tb)
    ensures Instant(ts - 1, tb) <= Instant(BeatTs(st, ts, tb), st.tb)
  {
    FineForWithinTick(ts, tb, st.tb);
    hide Instant, Rescale, FineFor;
    InstantMonotone(Rescale(ts, tb, st.tb), BeatTs(st, ts, tb), st.tb);
  }

  /** The head of stream k is at or after the tick before ts. */
  ghost predicate Reached(q: Queue, s: int, ts: int, k: int)
    requires 0 <= s < |q.streams| && 0 <= k < |q.streams|
  {
    HasTs(q.streams[k]) && Instant(ts - 1, q.streams[s].tb) <= HeadTime(q.streams[k])
  }

  ghost predicate Reaches(q: Queue, s: int, ts: int, k: int)
    requires 0 <= s < |q.streams| && 0 <= k < |q.streams|
  {
    k != s && q.streams[k].limiting ==> Reached(q, s, ts, k)
  }

  /** A limiting stream that has finished, and so gets no heartbeat, is already there. */
  ghost predicate FinishedReach(q: Queue, s: int, ts: int)
    requires 0 <= s < |q.streams|
  {
    forall j :: 0 <= j < |q.streams| && q.streams[j].finished ==> Reaches(q, s, ts, j)
  }

  /** From stream k on: a limiting stream that can get a heartbeat has a base fine enough, and its
      fake timestamp is not the sentinel. */
  ghost predicate Beatable(q: Queue, s: int, ts: int, k: int)
    requires 0 <= s < |q.streams| && 0 <= k
  {
    forall j :: k <= j < |q.streams| && j != s && q.streams[j].limiting && !q.streams[j].finished ==>
      && FineFor(ts, q.streams[j].tb, q.streams[s].tb)
      && BeatTs(q.streams[j], ts, q.streams[s].tb) != NOPTS
  }

  /** What moving a head finishes has a head itself; the finished head stays or becomes that stream. */
  lemma UpdateFinishes(q: Queue, i: int, ts: int)
    requires InBounds(q) && 0 <= i < |q.streams|
    ensures var r := UpdateTs(q, i, ts);
            && (r.headFinished == q.headFinished || (r.headFinished == i && q.streams[i].limiting))
            && (forall k :: 0 <= k < |q.streams| && r.streams[k].finished && !q.streams[k].finished ==> HasTs(r.streams[k]))
            && (forall k :: 0 <= k < |q.streams| && k != i ==> r.streams[k].headTs == q.streams[k].headTs)
  {
    hide Instant, FinishStream, HeadUpdate;
    if ts != NOPTS {
      FinishFinishes(SetHead(q, i, ts), i);
    }
  }

  lemma FinishFinishes(q: Queue, i: int)
    requires InBounds(q) && 0 <= i < |q.streams| && HasTs(q.streams[i])
    ensures var r := FinishStream(q, i);
            && (r.headFinished == q.headFinished || (r.headFinished == i && q.streams[i].limiting))
            && (forall k :: 0 <= k < |q.streams| && r.streams[k].finished && !q.streams[k].finished ==> HasTs(r.streams[k]))
            && (forall k :: 0 <= k < |q.streams| ==> r.streams[k].headTs == q.streams[k].headTs)
  {
    hide Instant;
  }

  ghost function BeatOne(q: Queue, s: int, ts: int, k: nat): (r: Queue)
    requires InBounds(q) && 0 <= s < |q.streams| && k < |q.streams|
    ensures InBounds(r) && OnlyHeads(q, r) && Beat(q, s, ts, k) == Beat(r, s, ts, k + 1)
  {
    if Lags(q, s, ts, k) then UpdateTs(q, k, BeatTs(q.streams[k], ts, q.streams[s].tb)) else q
  }

  lemma BeatOneReaches(q: Queue, s: int, ts: int, k: nat)
    requires Sound(q) && 0 <= s < |q.streams| && k < |q.streams|
    requires Reached(q, s, ts, s) && FinishedReach(q, s, ts) && Beatable(q, s, ts, k)
    ensures var r := BeatOne(q, s, ts, k);
            && Sound(r) && Grows(q, r) && Reaches(r, s, ts, k)
            && Reached(r, s, ts, s) && FinishedReach(r, s, ts) && Beatable(r, s, ts, k + 1)
  {
    var st, tb := q.streams[k], q.streams[s].tb;
    if Lags(q, s, ts, k) {
      var b := BeatTs(st, ts, tb);
      UpdateTsSound(q, k, b);
      UpdateFinishes(q, k, b);
      if st.limiting {
        BeatTsReaches(st, ts, tb);
      }
      StillReach(q, UpdateTs(q, k, b), s, ts, k);
      StillBeatable(q, UpdateTs(q, k, b), s, ts, k);
    } else {
      hide Instant;
      InstantMonotone(ts - 1, ts, tb);
      GrowsReflexive(q);
    }
  }

  /** What a heartbeat has finished is not before the finished head, which had got there. */
  lemma StillReach(q: Queue, r: Queue, s: int, ts: int, k: nat)
    requires Sound(q) && Sound(r) && Grows(q, r) && OnlyHeads(q, r) && 0 <= s < |q.streams| && k < |q.streams| && k != s
    requires Reached(q, s, ts, s) && FinishedReach(q, s, ts) && Reaches(r, s, ts, k)
    requires r.headFinished == q.headFinished || (r.headFinished == k && q.streams[k].limiting)
    requires forall j :: 0 <= j < |q.streams| && r.streams[j].finished && !q.streams[j].finished ==> HasTs(r.streams[j])
    ensures Reached(r, s, ts, s) && FinishedReach(r, s, ts)
  {
    hide Instant, HeadOk, InBounds;
    assert Later(q.streams[s], r.streams[s]);
    var h := r.headFinished;
    if h >= 0 {
      assert Later(q.streams[h], r.streams[h]);
      assert Reached(r, s, ts, h) by {
        if h != k && h != s {
          assert Reaches(q, s, ts, h);
        }
      }
    }
    forall j | 0 <= j < |r.streams| && r.streams[j].finished
      ensures Reaches(r, s, ts, j)
    {
      assert Later(q.streams[j], r.streams[j]);
      if j != s && r.streams[j].limiting {
        if q.streams[j].finished {
          assert Reaches(q, s, ts, j);
        } else {
          assert Stopped(r.streams[j]);
        }
      }
    }
  }

  lemma StillBeatable(q: Queue, r: Queue, s: int, ts: int, k: nat)
    requires OnlyHeads(q, r) && 0 <= s < |q.streams| && k < |q.streams| && Beatable(q, s, ts, k)
    requires forall j :: 0 <= j < |q.streams| && j != k ==> r.streams[j].headTs == q.streams[j].headTs
    requires forall j :: 0 <= j < |q.streams| && q.streams[j].finished ==> r.streams[j].finished
    ensures Beatable(r, s, ts, k + 1)
  {
    hide FineFor, Rescale;
  }

  lemma ReachesLater(q: Queue, r: Queue, s: int, ts: int, k: int)
    requires 0 <= s < |q.streams| && 0 <= k < |q.streams| && Reaches(q, s, ts, k)
    requires Grows(q, r) && OnlyHeads(q, r)
    ensures Reaches(r, s, ts, k)
  {
    hide Instant;
    assert Later(q.streams[k], r.streams[k]);
  }

  /** From stream k on, every limiting stream reaches the tail that is being held back. */
  lemma {:induction false} BeatReaches(q: Queue, s: int, ts: int, k: nat, j: nat)
    requires Sound(q) && 0 <= s < |q.streams| && k <= j < |q.streams|
    requires Reached(q, s, ts, s) && FinishedReach(q, s, ts) && Beatable(q, s, ts, k)
    ensures Reaches(Beat(q, s, ts, k), s, ts, j)
    decreases j - k
  {
    hide HeadOk, FinishOk, Beatable, FinishedReach, Reached, Reaches, Beat, Grows, InBounds;
    var q1 := BeatOne(q, s, ts, k);
    BeatOneReaches(q, s, ts, k);
    hide BeatOne, OnlyHeads;
    if j == k {
      BeatSound(q1, s, ts, k + 1);
      ReachesLater(q1, Beat(q1, s, ts, k + 1), s, ts, k);
    } else {
      BeatReaches(q1, s, ts, k + 1, j);
    }
  }

  lemma {:induction false} ReceiveFromGot(q: Queue, k: nat, eofs: nat, s: nat)
    requires InBounds(q) && AllCountable(q) && k <= s < |q.streams| && Releasable(q, s)
    ensures ReceiveFrom(q, k, eofs).1.Got?
    decreases |q.streams| - k
  {
    if k < s && !Releasable(q, k) {
      ReceiveFromGot(q, k + 1, if ReceiveFor(q, k).1.Eof? then eofs + 1 else eofs, s);
    }
  }

  lemma InternalGot(q: Queue, idx: int, s: nat)
    requires InBounds(q) && AllCountable(q) && idx < |q.streams| && s < |q.streams| && Releasable(q, s)
    requires idx < 0 || idx == s
    ensures ReceiveInternal(q, idx).1.Got?
  {
    if idx < 0 {
      ReceiveFromGot(q, 0, 0, s);
    }
  }

  /** Without a given stream, the one checked is the one whose head is latest. */
  lemma {:induction false} MostAheadIsLatest(streams: seq<Stream>, best: int, k: nat)
    requires -1 <= best < |streams| && k <= |streams| && (best >= 0 ==> HasTs(streams[best]))
    ensures var r := MostAhead(streams, best, k);
            && (r < 0 <==> best < 0 && forall j :: k <= j < |streams| ==> !HasTs(streams[j]))
            && (best >= 0 ==> r >= 0 && HeadTime(streams[best]) <= HeadTime(streams[r]))
            && forall j :: k <= j < |streams| && HasTs(streams[j]) ==> r >= 0 && HeadTime(streams[j]) <= HeadTime(streams[r])
    decreases |streams| - k
  {
    hide Instant;
    if k < |streams| {
      var ahead := HasTs(streams[k]) && (best < 0 || HeadTime(streams[best]) < HeadTime(streams[k]));
      MostAheadIsLatest(streams, if ahead then k else best, k + 1);
    }
  }

  /** How many of the queued samples the next output of a stream takes; 0 is a whole queued frame. */
  function NextSize(st: Stream): nat {
    if st.finished && Total(st.fifo) < st.frameSamples then Total(st.fifo) else st.frameSamples
  }

  /** Something is queued, and a frame size of samples, or all that will come. */
  predicate Filled(st: Stream) {
    st.fifo != [] && (st.frameSamples <= Total(st.fifo) || st.finished)
  }

  /** With a frame size: enough samples are queued, and the frame of that size does not end after
      the tail. Without one, the frame is the tail. */
  predicate SizeFits(st: Stream) {
    st.frameSamples != 0 ==>
      && Filled(st)
      && var end := FrameEnd(st.fifo[0], NextSize(st)); end == NOPTS || end <= TailTs(st.fifo)
  }

  /** The setting of the bound for checked stream s. */
  ghost predicate Bounded(q: Queue, s: int)
    requires 0 <= s < |q.streams|
  {
    var st := q.streams[s];
    var tail := TailTs(st.fifo);
    tail != NOPTS ==>
      NOPTS < tail && SizeFits(st) && FinishedReach(q, s, tail + 1) && Beatable(q, s, tail + 1, 0)
  }

  lemma TailOfFirst(st: Stream)
    requires TailTs(st.fifo) != NOPTS
    ensures st.fifo != [] && (FrameEnd(st.fifo[0], 0) == NOPTS || FrameEnd(st.fifo[0], 0) == TailTs(st.fifo))
  {
  }

  /** A queued frame that no limiting head lies before can be released. */
  lemma BehindHeads(q: Queue, s: int, tail: int)
    requires InBounds(q) && HeadOk(q) && 0 <= s < |q.streams|
    requires var st := q.streams[s];
             && CanOutput(st) && 0 <= WantSamples(st)
             && var end := FrameEnd(st.fifo[0], WantSamples(st)); end == NOPTS || end <= tail
    requires forall j :: 0 <= j < |q.streams| && q.streams[j].limiting ==>
               HasTs(q.streams[j]) && Instant(tail, q.streams[s].tb) <= HeadTime(q.streams[j])
    ensures Releasable(q, s)
  {
    InstantMonotone(FrameEnd(q.streams[s].fifo[0], WantSamples(q.streams[s])), tail, q.streams[s].tb);
    hide Instant;
  }

  /** After a heartbeat the held-back tail of the checked stream can be released. */
  lemma BeatReleases(q: Queue, s: int)
    requires Inv(q) && 0 <= s < |q.streams| && Bounded(q, s)
    requires Overflows(q.streams[s], q.bufSize)
    ensures var r := Beat(q, s, TailTs(q.streams[s].fifo) + 1, 0); InBounds(r) && Releasable(r, s)
  {
    hide Instant, FinishOk, HeadOk, Releasable, Rescale, FinishedReach, Beatable, Beat, TailTs, InBounds;
    var st := q.streams[s];
    var tail := TailTs(st.fifo);
    BeatSound(q, s, tail + 1, 0);
    var r := Beat(q, s, tail + 1, 0);
    InstantMonotone(tail, st.headTs, st.tb);
    assert Reached(q, s, tail + 1, s);
    forall j | 0 <= j < |r.streams| && r.streams[j].limiting
      ensures HasTs(r.streams[j]) && Instant(tail, r.streams[s].tb) <= HeadTime(r.streams[j])
    {
      assert Later(st, r.streams[s]);
      BeatReaches(q, s, tail + 1, 0, j);
    }
    TailOfFirst(st);
    assert StreamOk(st);
    assert Later(st, r.streams[s]);
    SizeStillFits(st, r.streams[s]);
    BehindHeads(r, s, tail);
  }

  /** Only the head and the finish flag of a stream differ. */
  lemma SizeStillFits(a: Stream, b: Stream)
    requires b == a.(headTs := b.headTs, finished := b.finished) && (a.finished ==> b.finished)
    requires SizeFits(a) && Countable(a) && TailTs(a.fifo) != NOPTS
    ensures CanOutput(b) && 0 <= WantSamples(b)
    ensures var end := FrameEnd(b.fifo[0], WantSamples(b)); end == NOPTS || end <= TailTs(a.fifo)
  {
    TailOfFirst(a);
  }

  /** A fired heartbeat makes the retry return a frame. */
  lemma HeartbeatReleases(q: Queue, idx: int)
    requires Inv(q) && AllCountable(q) && idx < |q.streams|
    requires Heartbeat(q, idx).1 && Bounded(q, Checked(q, idx))
    ensures AllCountable(Heartbeat(q, idx).0) && ReceiveInternal(Heartbeat(q, idx).0, idx).1.Got?
  {
    hide Releasable, Bounded, HeadOk, FinishOk, StreamsOk, Beat, ReceiveInternal, AllCountable;
    var s := Checked(q, idx);
    var q1 := Heartbeat(q, idx).0;
    HeartbeatSound(q, idx);
    OnlyHeadsKeepsBuffers(q, q1);
    CountableFromOk(q1);
    BeatReleases(q, s);
    InternalGot(q1, idx, s);
  }

  /** Whenever a receive reports that it needs more input, the checked stream (the given one,
      or the one most ahead) buffers less than the limit between its tail and its head. */
  lemma BoundedBuffering(q: Queue, idx: int)
    requires Inv(q) && AllCountable(q) && idx < |q.streams|
    requires Checked(q, idx) >= 0 ==> Bounded(q, Checked(q, idx))
    requires Receive(q, idx).1.Again?
    ensures Receive(q, idx).0 == q
    ensures var s := Checked(q, idx);
            s >= 0 ==>
              var st := q.streams[s];
              var tail := TailTs(st.fifo);
              tail == NOPTS || tail >= st.headTs || Rescale(st.headTs - tail, st.tb, MICROSECONDS) < q.bufSize
  {
    hide Inv, Bounded, Beat, ReceiveInternal, AllCountable;
    if Heartbeat(q, idx).1 {
      HeartbeatReleases(q, idx);
    }
  }

  /** And with a frame passed through whole, a stream asked for by its index, and heartbeats that
      reach, the retry returns a frame exactly if the limiting streams that have finished were at or
      past the tail. */
  lemma RetryGotIff(q: Queue, s: nat)
    requires Inv(q) && AllCountable(q) && s < |q.streams| && q.streams[s].frameSamples == 0
    requires ReceiveInternal(q, s).1.Again? && Overflows(q.streams[s], q.bufSize)
    requires NOPTS < TailTs(q.streams[s].fifo) && Beatable(q, s, TailTs(q.streams[s].fifo) + 1, 0)
    ensures Receive(q, s).1.Got? <==> FinishedReach(q, s, TailTs(q.streams[s].fifo) + 1)
  {
    hide FinishOk, HeadOk, InBounds, FinishedReach, Beatable, Heartbeat, StreamsOk, AllCountable, Releasable, TailTs, Overflows;
    if FinishedReach(q, s, TailTs(q.streams[s].fifo) + 1) {
      RetryGets(q, s);
    } else {
      RetryBlocked(q, s);
    }
  }

  lemma RetryGets(q: Queue, s: nat)
    requires Inv(q) && AllCountable(q) && s < |q.streams| && q.streams[s].frameSamples == 0
    requires Overflows(q.streams[s], q.bufSize) && NOPTS < TailTs(q.streams[s].fifo)
    requires Beatable(q, s, TailTs(q.streams[s].fifo) + 1, 0) && FinishedReach(q, s, TailTs(q.streams[s].fifo) + 1)
    ensures Heartbeat(q, s).1 && AllCountable(Heartbeat(q, s).0) && ReceiveInternal(Heartbeat(q, s).0, s).1.Got?
  {
    hide FinishOk, HeadOk, InBounds, FinishedReach, Beatable, Beat, StreamsOk, AllCountable, TailTs, ReceiveInternal;
    HeartbeatReleases(q, s);
  }

  lemma RetryBlocked(q: Queue, s: nat)
    requires Inv(q) && AllCountable(q) && s < |q.streams| && q.streams[s].frameSamples == 0
    requires !Releasable(q, s) && Overflows(q.streams[s], q.bufSize)
    requires !FinishedReach(q, s, TailTs(q.streams[s].fifo) + 1)
    ensures AllCountable(Heartbeat(q, s).0) && !Releasable(Heartbeat(q, s).0, s)
  {
    hide FinishOk, HeadOk, InBounds, Grows, FinishedReach, Heartbeat, StreamsOk, AllCountable, Releasable, TailTs;
    HeartbeatSound(q, s);
    OnlyHeadsKeepsBuffers(q, Heartbeat(q, s).0);
    CountableFromOk(Heartbeat(q, s).0);
    FinishedBlocks(q, Heartbeat(q, s).0, s);
  }

  /** A finished stream keeps its head: what it held back before a heartbeat it holds back after. */
  lemma FinishedBlocks(q: Queue, r: Queue, s: nat)
    requires Inv(q) && Sound(r) && Grows(q, r) && OnlyHeads(q, r) && s < |q.streams| && q.streams[s].frameSamples == 0
    requires !Releasable(q, s) && TailTs(q.streams[s].fifo) != NOPTS && !FinishedReach(q, s, TailTs(q.streams[s].fifo) + 1)
    ensures !Releasable(r, s)
  {
    var st := q.streams[s];
    assert StreamOk(st);
    hide FinishOk, HeadOk, Instant, Rescale, InBounds, Releasable, StreamsOk, Normal;
    TailOfFirst(st);
    if FrameEnd(st.fifo[0], 0) == NOPTS {
      UntimedPasses(q, s);
    }
    if Releasable(r, s) {
      WholeFrameEnds(r.streams[s]);
      ReleasableBehindHeads(r, s);
      AllReach(q, r, s, TailTs(st.fifo));
    }
  }

  lemma WholeFrameEnds(st: Stream)
    requires st.frameSamples == 0 && st.samplesQueued >= 0
    ensures WantSamples(st) == 0
  {
  }

  lemma AllReach(q: Queue, r: Queue, s: nat, tail: int)
    requires Grows(q, r) && OnlyHeads(q, r) && s < |q.streams|
    requires forall j :: 0 <= j < |r.streams| && r.streams[j].limiting ==>
               HasTs(r.streams[j]) && Instant(tail, r.streams[s].tb) <= HeadTime(r.streams[j])
    ensures FinishedReach(q, s, tail + 1)
  {
    hide Instant;
    forall j | 0 <= j < |q.streams| && q.streams[j].finished
      ensures Reaches(q, s, tail + 1, j)
    {
      assert Later(q.streams[j], r.streams[j]);
    }
  }

  lemma UntimedPasses(q: Queue, s: nat)
    requires InBounds(q) && s < |q.streams| && StreamOk(q.streams[s]) && q.streams[s].frameSamples == 0
    requires q.streams[s].fifo != [] && FrameEnd(q.streams[s].fifo[0], 0) == NOPTS
    ensures Releasable(q, s)
  {
  }

  // ---- the bound needs bases of comparable tick ----

  /** Stream 0 holds a frame at `tail` and one `gap` later; limiting stream 1 has a base but no head. */
  function CoarseQueue(from: Rational, to: Rational, tail: int, gap: nat, bufSize: int): Queue {
    var st0 := NewStream(false).(
      fifo := [Video(tail, 0, from), Video(tail + gap, 0, from)], tb := from, headTs := tail + gap, framesSent := 2);
    Queue([st0, NewStream(true).(tb := to, framesSent := 1)], false, -1, -1, bufSize, true)
  }

  lemma CoarseQueueInv(from: Rational, to: Rational, tail: int, gap: nat, bufSize: int)
    ensures Inv(CoarseQueue(from, to, tail, gap, bufSize)) && AllCountable(CoarseQueue(from, to, tail, gap, bufSize))
  {
    var q := CoarseQueue(from, to, tail, gap, bufSize);
    hide Instant;
    assert q.streams[1].limiting;
    assert Total(q.streams[0].fifo[1..]) == 0;
    assert StreamOk(q.streams[0]) && StreamOk(q.streams[1]);
    assert !q.streams[0].finished;
  }

  /** The queue on the way: stream 0 holds `fifo`; the untimed frame of stream 1 is `first`. */
  function Filling(from: Rational, to: Rational, fifo: seq<Frame>, headTs: int,
                   first: seq<Frame>, sent: nat, bufSize: int): Queue
  {
    var st0 := NewStream(false).(fifo := fifo, tb := from, headTs := headTs, framesSent := |fifo|);
    Queue([st0, NewStream(true).(tb := to, fifo := first, framesSent := sent)], false, -1, -1, bufSize, true)
  }

  lemma OneFrameOk(st: Stream)
    requires |st.fifo| <= 1 && st.samplesQueued == 0
    requires st.fifo != [] ==> st.fifo[0].samples == [] && st.fifo[0].tb == st.tb
    ensures StreamOk(st)
  {
    assert Total([]) == 0;
    if st.fifo != [] {
      assert st.fifo[1..] == [];
      assert Total(st.fifo) == |st.fifo[0].samples| + Total([]);
    }
  }

  lemma FillingBasic(from: Rational, to: Rational, fifo: seq<Frame>, headTs: int,
                     first: seq<Frame>, sent: nat, bufSize: int)
    requires |fifo| <= 1 && |first| <= 1
    requires fifo != [] ==> fifo[0].samples == [] && fifo[0].tb == from
    requires first != [] ==> first[0].samples == [] && first[0].tb == to
    ensures var q := Filling(from, to, fifo, headTs, first, sent, bufSize); Basic(q) && AllCountable(q)
  {
    var q := Filling(from, to, fifo, headTs, first, sent, bufSize);
    assert q.streams[1].limiting;
    OneFrameOk(q.streams[0]);
    OneFrameOk(q.streams[1]);
    CountableFromOk(q);
    hide StreamOk, AllCountable;
  }

  /** A frame without a timestamp, which gives stream 1 its base and no head. */
  function UntimedFrame(to: Rational): Frame {
    Video(NOPTS, 0, to)
  }

  lemma UntimedIn(to: Rational, bufSize: int)
    ensures var q, f := NewQueue([false, true], bufSize), UntimedFrame(to);
            && Basic(q) && Legal(q, Send(1, f))
            && Step(q, Send(1, f)) == (Filling(Rational(1, 1), to, [], NOPTS, [f], 1, bufSize), Accepted(1, f))
  {
    var q, f := Filling(Rational(1, 1), Rational(1, 1), [], NOPTS, [], 0, bufSize), UntimedFrame(to);
    FillingBasic(Rational(1, 1), Rational(1, 1), [], NOPTS, [], 0, bufSize);
    assert [false, true][1];
    assert NewQueue([false, true], bufSize).streams == q.streams;
    hide Instant;
    assert [] + [f] == [f];
    assert SendFrame(q, 1, f).streams == Filling(Rational(1, 1), to, [], NOPTS, [f], 1, bufSize).streams;
  }

  lemma UntimedOut(to: Rational, bufSize: int)
    ensures var q, f := Filling(Rational(1, 1), to, [], NOPTS, [UntimedFrame(to)], 1, bufSize), UntimedFrame(to);
            && Basic(q) && Legal(q, Recv(1))
            && Step(q, Recv(1)) == (Filling(Rational(1, 1), to, [], NOPTS, [], 1, bufSize), Released(1, f))
  {
    var f := UntimedFrame(to);
    var q := Filling(Rational(1, 1), to, [], NOPTS, [f], 1, bufSize);
    FillingBasic(Rational(1, 1), to, [], NOPTS, [f], 1, bufSize);
    hide Instant;
    assert Releasable(q, 1);
    assert ReceiveFor(q, 1).0.streams == Filling(Rational(1, 1), to, [], NOPTS, [], 1, bufSize).streams;
  }

  /** While no head is known, a frame of a stream that does not limit changes that stream only. */
  lemma FrameIn(q: Queue, i: nat, f: Frame)
    requires InBounds(q) && i < |q.streams| && q.headFinished < 0 && f.samples == [] && FrameEnd(f, 0) != NOPTS
    requires var st := q.streams[i];
             && !st.limiting && !st.finished && st.frameSamples == 0 && st.framesSent + 1 < st.framesMax
             && (if HasTs(st) then st.tb == f.tb && st.headTs < FrameEnd(f, 0) else true)
    ensures var st := q.streams[i];
            SendFrame(q, i, f) == q.(streams := q.streams[i := st.(
              fifo := st.fifo + [f], tb := f.tb, headTs := FrameEnd(f, 0), framesSent := st.framesSent + 1)])
  {
    hide InBounds, Rescale;
  }

  lemma TailIn(from: Rational, to: Rational, tail: int, bufSize: int)
    requires tail != NOPTS
    ensures var q, f := Filling(Rational(1, 1), to, [], NOPTS, [], 1, bufSize), Video(tail, 0, from);
            && Basic(q) && Legal(q, Send(0, f))
            && Step(q, Send(0, f)) == (Filling(from, to, [f], tail, [], 1, bufSize), Accepted(0, f))
  {
    var q, f := Filling(Rational(1, 1), to, [], NOPTS, [], 1, bufSize), Video(tail, 0, from);
    FillingBasic(Rational(1, 1), to, [], NOPTS, [], 1, bufSize);
    FrameIn(q, 0, f);
    hide SendFrame, InBounds, StreamsOk, AllCountable;
    assert [] + [f] == [f];
    assert SendFrame(q, 0, f).streams == Filling(from, to, [f], tail, [], 1, bufSize).streams;
  }

  lemma GapIn(from: Rational, to: Rational, tail: int, gap: nat, bufSize: int)
    requires tail != NOPTS && tail + gap != NOPTS && gap > 0
    ensures var q, f := Filling(from, to, [Video(tail, 0, from)], tail, [], 1, bufSize), Video(tail + gap, 0, from);
            && Basic(q) && Legal(q, Send(0, f))
            && Step(q, Send(0, f)) == (CoarseQueue(from, to, tail, gap, bufSize), Accepted(0, f))
  {
    var f := Video(tail + gap, 0, from);
    var q := Filling(from, to, [Video(tail, 0, from)], tail, [], 1, bufSize);
    FillingBasic(from, to, [Video(tail, 0, from)], tail, [], 1, bufSize);
    FrameIn(q, 0, f);
    hide SendFrame, InBounds, StreamsOk, AllCountable;
    assert [Video(tail, 0, from)] + [f] == [Video(tail, 0, from), f];
    assert SendFrame(q, 0, f).streams == CoarseQueue(from, to, tail, gap, bufSize).streams;
  }

  /** The two frames of stream 0. */
  function FrameOps(from: Rational, tail: int, gap: nat): seq<Op> {
    [Send(0, Video(tail, 0, from))] + [Send(0, Video(tail + gap, 0, from))]
  }

  /** After an untimed frame of stream 1, in and out. */
  function CoarseOps(from: Rational, to: Rational, tail: int, gap: nat): seq<Op> {
    [Send(1, UntimedFrame(to))] + ([Recv(1)] + FrameOps(from, tail, gap))
  }

  lemma CoarseQueueBasic(from: Rational, to: Rational, tail: int, gap: nat, bufSize: int)
    ensures Basic(CoarseQueue(from, to, tail, gap, bufSize))
  {
    CoarseQueueInv(from, to, tail, gap, bufSize);
    hide CoarseQueue, StreamsOk, InBounds, HeadOk, FinishOk;
  }

  lemma LastFrameIn(from: Rational, to: Rational, tail: int, gap: nat, bufSize: int)
    requires tail != NOPTS && tail + gap != NOPTS && gap > 0
    ensures var q, ops := Filling(from, to, [Video(tail, 0, from)], tail, [], 1, bufSize), [Send(0, Video(tail + gap, 0, from))];
            Basic(q) && LegalRun(q, ops) && Run(q, ops).0 == CoarseQueue(from, to, tail, gap, bufSize)
  {
    GapIn(from, to, tail, gap, bufSize);
    CoarseQueueBasic(from, to, tail, gap, bufSize);
    hide Step, Filling, CoarseQueue, Basic, Run, LegalRun, Legal, Video;
    var g := Video(tail + gap, 0, from);
    NoOps(CoarseQueue(from, to, tail, gap, bufSize));
    Prepend(Filling(from, to, [Video(tail, 0, from)], tail, [], 1, bufSize), Send(0, g),
            CoarseQueue(from, to, tail, gap, bufSize), Accepted(0, g), []);
    assert [Send(0, g)] + [] == [Send(0, g)];
  }

  lemma FramesIn(from: Rational, to: Rational, tail: int, gap: nat, bufSize: int)
    requires tail != NOPTS && tail + gap != NOPTS && gap > 0
    ensures var q, ops := Filling(Rational(1, 1), to, [], NOPTS, [], 1, bufSize), FrameOps(from, tail, gap);
            Basic(q) && LegalRun(q, ops) && Run(q, ops).0 == CoarseQueue(from, to, tail, gap, bufSize)
  {
    var f, g := Video(tail, 0, from), Video(tail + gap, 0, from);
    TailIn(from, to, tail, bufSize);
    LastFrameIn(from, to, tail, gap, bufSize);
    hide Step, Filling, CoarseQueue, Basic, Run, LegalRun, Legal, Video;
    Prepend(Filling(Rational(1, 1), to, [], NOPTS, [], 1, bufSize), Send(0, f),
            Filling(from, to, [f], tail, [], 1, bufSize), Accepted(0, f), [Send(0, g)]);
  }

  ghost predicate CoarseRun(from: Rational, to: Rational, tail: int, gap: nat, bufSize: int) {
    var q0, ops := NewQueue([false, true], bufSize), CoarseOps(from, to, tail, gap);
    Basic(q0) && LegalRun(q0, ops) && Run(q0, ops).0 == CoarseQueue(from, to, tail, gap, bufSize)
  }

  lemma CoarseReached(from: Rational, to: Rational, tail: int, gap: nat, bufSize: int)
    requires tail != NOPTS && tail + gap != NOPTS && gap > 0
    ensures CoarseRun(from, to, tail, gap, bufSize)
  {
    var f := UntimedFrame(to);
    var q0 := NewQueue([false, true], bufSize);
    var q1 := Filling(Rational(1, 1), to, [], NOPTS, [f], 1, bufSize);
    var q2 := Filling(Rational(1, 1), to, [], NOPTS, [], 1, bufSize);
    UntimedIn(to, bufSize);
    UntimedOut(to, bufSize);
    FramesIn(from, to, tail, gap, bufSize);
    hide Step, Filling, CoarseQueue, NewQueue, Basic, Run, LegalRun, Legal, UntimedFrame, FrameOps;
    Prepend(q1, Recv(1), q2, Released(1, f), FrameOps(from, tail, gap));
    Prepend(q0, Send(1, f), q1, Accepted(1, f), [Recv(1)] + FrameOps(from, tail, gap));
  }

  /** A gap that overflows the buffer. */
  lemma LongGap(from: Rational, bufSize: int) returns (gap: nat)
    ensures gap > 0 && Rescale(gap, from, MICROSECONDS) >= bufSize
  {
    var m := if bufSize > 0 then bufSize else 1;
    gap := m * from.den;
    MulPos(m, from.den);
    var b := Product(from.num, 1_000_000);
    var k := m * b;
    MulPos(m, b);
    assert gap * b == k * from.den;
    ModUnique(gap * b, k, from.den);
    NearBound(gap, b, from.den);
    assert Product(1, from.den) == from.den;
    SameProduct(Rescale(gap, from, MICROSECONDS), k, from.den);
    MulGap(m, b);
  }

  lemma SameProduct(x: int, y: int, c: Pos)
    requires x * c == y * c
    ensures x == y
  {
    MulGap(x - y, c);
    assert (x - y) * c == x * c - y * c;
  }

  /** Wherever the fake timestamp is rounded to before the tail, a heartbeat fires, and the retry
      still returns nothing. */
  lemma StallsAt(from: Rational, to: Rational, ts: int, gap: nat, bufSize: int)
    requires !WithinTick(ts, from, to) && ts - 1 != NOPTS && ts - 1 + gap != NOPTS
    requires gap > 0 && Rescale(gap, from, MICROSECONDS) >= bufSize
    ensures var q := CoarseQueue(from, to, ts - 1, gap, bufSize);
            && Inv(q) && AllCountable(q) && Heartbeat(q, 0).1 && AllCountable(Heartbeat(q, 0).0)
            && ReceiveInternal(q, 0).1.Again? && ReceiveInternal(Heartbeat(q, 0).0, 0).1.Again?
  {
    var q := CoarseQueue(from, to, ts - 1, gap, bufSize);
    CoarseQueueInv(from, to, ts - 1, gap, bufSize);
    CoarseBeat(from, to, ts, gap, bufSize);
    var q1 := Heartbeat(q, 0).0;
    hide Instant, Heartbeat, Rescale;
    OnlyHeadsKeepsBuffers(q, q1);
    CountableFromOk(q1);
    assert FrameEnd(q.streams[0].fifo[0], 0) == ts - 1;
    assert !Releasable(q, 0);
    assert !Releasable(q1, 0);
  }

  lemma CoarseBeat(from: Rational, to: Rational, ts: int, gap: nat, bufSize: int)
    requires ts - 1 != NOPTS && ts - 1 + gap != NOPTS && gap > 0 && Rescale(gap, from, MICROSECONDS) >= bufSize
    ensures var q := CoarseQueue(from, to, ts - 1, gap, bufSize);
            var r := Rescale(ts, from, to);
            && InBounds(q) && Heartbeat(q, 0).1
            && Heartbeat(q, 0).0 == (if r == NOPTS then q else q.(streams := q.streams[1 := q.streams[1].(headTs := r)], head := 1))
  {
    var q := CoarseQueue(from, to, ts - 1, gap, bufSize);
    CoarseQueueInv(from, to, ts - 1, gap, bufSize);
    var r := Rescale(ts, from, to);
    CoarseUpdate(from, to, ts - 1, gap, bufSize, r);
    hide Instant, Rescale, UpdateTs;
    assert TailTs(q.streams[0].fifo) == ts - 1;
    assert !Lags(q, 0, ts, 0) && Lags(q, 0, ts, 1);
    var q1 := UpdateTs(q, 1, r);
    assert Beat(q1, 0, ts, 2) == q1;
    assert Beat(q, 0, ts, 1) == q1;
  }

  lemma CoarseUpdate(from: Rational, to: Rational, tail: int, gap: nat, bufSize: int, r: int)
    ensures var q := CoarseQueue(from, to, tail, gap, bufSize);
            && InBounds(q)
            && UpdateTs(q, 1, r)
               == (if r == NOPTS then q else q.(streams := q.streams[1 := q.streams[1].(headTs := r)], head := 1))
  {
    var q := CoarseQueue(from, to, tail, gap, bufSize);
    CoarseQueueInv(from, to, tail, gap, bufSize);
    hide Instant;
    if r != NOPTS {
      var q2 := SetHead(q, 1, r);
      assert FirstLimiting(q2.streams, 1) == 1;
      assert ScanHead(q2.streams, 1, 2) == 1;
      assert ScanHead(q2.streams, 1, 1) == 1;
      assert ScanHead(q2.streams, 1, 0) == 1;
    }
  }

  /** Such a queue is reached from a new one. */
  lemma StallReached(from: Rational, to: Rational, ts: int, gap: nat, bufSize: int)
    requires !WithinTick(ts, from, to) && ts - 1 != NOPTS && ts - 1 + gap != NOPTS
    requires gap > 0 && Rescale(gap, from, MICROSECONDS) >= bufSize
    ensures var q := CoarseQueue(from, to, ts - 1, gap, bufSize);
            && Inv(q) && AllCountable(q) && Heartbeat(q, 0).1 && Receive(q, 0).1.Again?
    ensures CoarseRun(from, to, ts - 1, gap, bufSize)
  {
    StallsAt(from, to, ts, gap, bufSize);
    CoarseReached(from, to, ts - 1, gap, bufSize);
    hide CoarseRun, WithinTick, Rescale, Heartbeat, ReceiveInternal, Inv, AllCountable;
  }

  /** So every pair of bases that is not fine enough stalls some queue, whatever the buffer size. */
  lemma CoarseStalls(from: Rational, to: Rational, bufSize: int) returns (tail: int, gap: nat)
    requires !FineEnough(to, from) && TickP(from, to) < -NOPTS - 1
    ensures var q := CoarseQueue(from, to, tail, gap, bufSize);
            && Inv(q) && AllCountable(q) && Heartbeat(q, 0).1 && Receive(q, 0).1.Again?
    ensures CoarseRun(from, to, tail, gap, bufSize)
  {
    var ts := CoarseLoses(from, to);
    gap := LongGap(from, bufSize);
    tail := ts - 1;
    hide Rescale, WithinTick, FineEnough, CoarseQueue, CoarseRun, Inv, AllCountable, Heartbeat, Receive;
    StallReached(from, to, ts, gap, bufSize);
  }

  /** And one with a tail at or after zero exactly beyond the ratio for those. */
  lemma ForwardStalls(from: Rational, to: Rational, bufSize: int) returns (tail: nat, gap: nat)
    requires !FineForward(to, from)
    ensures var q := CoarseQueue(from, to, tail, gap, bufSize);
            && Inv(q) && AllCountable(q) && Heartbeat(q, 0).1 && Receive(q, 0).1.Again?
    ensures CoarseRun(from, to, tail, gap, bufSize)
  {
    var ts := ForwardLoses(from, to);
    gap := LongGap(from, bufSize);
    tail := ts - 1;
    hide Rescale, WithinTick, FineForward, CoarseQueue, CoarseRun, Inv, AllCountable, Heartbeat, Receive;
    StallReached(from, to, ts, gap, bufSize);
  }

  /** Tenths against whole seconds. */
  lemma CoarseBaseStalls()
    ensures var q := CoarseQueue(Rational(1, 10), Rational(1, 1), 3, 97, 1);
            && Inv(q) && AllCountable(q) && Heartbeat(q, 0).1 && Receive(q, 0).1.Again?
    ensures CoarseRun(Rational(1, 10), Rational(1, 1), 3, 97, 1)
  {
    WithinTickScaled(4, Rational(1, 10), Rational(1, 1));
    assert Rescale(97, Rational(1, 10), MICROSECONDS) == 9_700_000;
    StallReached(Rational(1, 10), Rational(1, 1), 4, 97, 1);
  }
}
