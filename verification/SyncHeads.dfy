/** What every operation of the sync queue keeps true of the cached head stream and of the
finish flags (fftools/sync_queue.c:171-275, 282-341). */
module SyncHeads {
  import opened Time
  import opened SyncModel

  // ---- the cached head ----

  ghost predicate IsHead(streams: seq<Stream>, h: int) {
    && 0 <= h < |streams| && streams[h].limiting
    && forall j :: 0 <= j < |streams| && streams[j].limiting ==>
         HasTs(streams[j]) && HeadTime(streams[h]) <= HeadTime(streams[j])
  }

  /** The cache agrees with full recomputation: -1 exactly until every limiting stream has a
      timestamp, then a limiting stream of least head. */
  ghost predicate HeadOk(q: Queue) {
    && (q.head < 0 <==> !q.haveLimiting || !AllTimed(q.streams))
    && (q.head >= 0 ==> IsHead(q.streams, q.head))
  }

  lemma {:induction false} ScanHeadLeast(streams: seq<Stream>, best: int, k: nat)
    requires 0 <= best < |streams| && k <= |streams| && streams[best].limiting && AllTimed(streams)
    ensures var r := ScanHead(streams, best, k);
            && streams[r].limiting
            && HeadTime(streams[r]) <= HeadTime(streams[best])
            && forall j :: k <= j < |streams| && streams[j].limiting ==> HeadTime(streams[r]) <= HeadTime(streams[j])
    decreases |streams| - k
  {
    hide Instant;
    if k < |streams| {
      if streams[k].limiting && HasTs(streams[k]) && HeadTime(streams[k]) < HeadTime(streams[best]) {
        ScanHeadLeast(streams, k, k + 1);
      } else {
        ScanHeadLeast(streams, best, k + 1);
      }
    }
  }

  lemma HeadUpdateOk(q: Queue)
    requires InBounds(q) && q.haveLimiting
    requires q.head >= 0 ==> q.streams[q.head].limiting && AllTimed(q.streams)
    ensures HeadOk(HeadUpdate(q))
  {
    if AllTimed(q.streams) {
      var start := if q.head < 0 then FirstLimiting(q.streams, 0) else q.head;
      ScanHeadLeast(q.streams, start, 0);
    }
  }

  // ---- the finished head ----

  /** A finished limiting stream with a timestamp: nothing may go beyond it. */
  predicate Stopped(st: Stream) {
    st.finished && st.limiting && HasTs(st)
  }

  ghost predicate FinishOk(q: Queue) {
    && (q.headFinished < 0 ==> forall k :: 0 <= k < |q.streams| ==> !Stopped(q.streams[k]))
    && (q.headFinished >= 0 ==>
          && q.headFinished < |q.streams|
          && Stopped(q.streams[q.headFinished])
          && (forall k :: 0 <= k < |q.streams| && Stopped(q.streams[k]) ==>
                HeadTime(q.streams[q.headFinished]) <= HeadTime(q.streams[k]))
          && (forall k :: 0 <= k < |q.streams| && HasTs(q.streams[k]) ==>
                HeadTime(q.streams[q.headFinished]) <= HeadTime(q.streams[k]) ==> q.streams[k].finished))
    && (q.finished <==> AllFinished(q.streams))
  }

  // ---- growth ----

  /** Heads only move forward, finished streams stay finished and keep their head. */
  ghost predicate Later(a: Stream, b: Stream) {
    && b.limiting == a.limiting
    && (HasTs(a) ==> HasTs(b) && HeadTime(a) <= HeadTime(b))
    && (a.finished ==> b.finished && b.headTs == a.headTs && b.tb == a.tb)
  }

  ghost predicate Grows(q: Queue, r: Queue) {
    && |r.streams| == |q.streams| && r.haveLimiting == q.haveLimiting
    && forall k :: 0 <= k < |q.streams| ==> Later(q.streams[k], r.streams[k])
  }

  lemma GrowsTransitive(p: Queue, q: Queue, r: Queue)
    requires Grows(p, q) && Grows(q, r)
    ensures Grows(p, r)
  {
    hide Instant;
    forall k | 0 <= k < |p.streams|
      ensures Later(p.streams[k], r.streams[k])
    {
      assert Later(p.streams[k], q.streams[k]) && Later(q.streams[k], r.streams[k]);
    }
  }

  ghost predicate Sound(q: Queue) {
    InBounds(q) && HeadOk(q) && FinishOk(q)
  }

  // ---- finish_stream ----

  /** FinishOk of everything but stream i, whose head has just been moved to or past the
      finished head (or not moved at all). */
  ghost predicate FinishPending(q: Queue, i: int) {
    && InBounds(q) && 0 <= i < |q.streams|
    && (q.headFinished < 0 ==> forall k :: 0 <= k < |q.streams| ==> !Stopped(q.streams[k]))
    && (q.headFinished >= 0 ==>
          && Stopped(q.streams[q.headFinished])
          && (forall k :: 0 <= k < |q.streams| && Stopped(q.streams[k]) ==>
                HeadTime(q.streams[q.headFinished]) <= HeadTime(q.streams[k]))
          && (forall k :: 0 <= k < |q.streams| && k != i && HasTs(q.streams[k]) ==>
                HeadTime(q.streams[q.headFinished]) <= HeadTime(q.streams[k]) ==> q.streams[k].finished))
    && (q.finished ==> AllFinished(q.streams))
  }

  lemma FinishStreamOk(q: Queue, i: int)
    requires FinishPending(q, i)
    ensures var r := FinishStream(q, i);
            && FinishOk(r) && Grows(q, r) && r.streams[i].finished && r.head == q.head
            && forall k :: 0 <= k < |q.streams| ==> r.streams[k].headTs == q.streams[k].headTs
  {
    var r := FinishStream(q, i);
    forall k | 0 <= k < |q.streams|
      ensures r.streams[k] == q.streams[k].(finished := r.streams[k].finished)
      ensures HeadTime(r.streams[k]) == HeadTime(q.streams[k])
      ensures q.streams[k].finished || k == i ==> r.streams[k].finished
    {
    }
    hide HeadTime;
    FinishMarkOk(q, i);
  }

  /** Exactly the stream itself and, if it limits and has a head, the streams whose head is at or
      beyond the finished head join those that had finished; every other stream stays open. */
  lemma FinishExact(q: Queue, i: int)
    requires FinishPending(q, i)
    ensures var r, st := FinishStream(q, i), q.streams[i];
            && (r.headFinished == q.headFinished || (r.headFinished == i && st.limiting && HasTs(st)))
            && forall k :: 0 <= k < |q.streams| ==>
                 && r.streams[k] == q.streams[k].(finished := r.streams[k].finished)
                 && (r.streams[k].finished <==>
                       q.streams[k].finished || k == i
                       || (st.limiting && HasTs(st) && HasTs(q.streams[k])
                           && HeadTime(q.streams[r.headFinished]) <= HeadTime(q.streams[k])))
  {
  }

  /** The new finished head is least, and everything at or beyond it is finished. */
  lemma FinishMarkOk(q: Queue, i: int)
    requires FinishPending(q, i)
    ensures FinishOk(FinishStream(q, i))
  {
    var r := FinishStream(q, i);
    var st := q.streams[i];
    FinishExact(q, i);
    forall k | 0 <= k < |q.streams|
      ensures HeadTime(r.streams[k]) == HeadTime(q.streams[k])
    {
    }
    hide HeadTime, FinishStream;
    if !(st.limiting && HasTs(st)) && q.headFinished >= 0 {
      assert r.headFinished == q.headFinished by { UnmarkedFinish(q, i); }
    }
  }

  lemma UnmarkedFinish(q: Queue, i: int)
    requires InBounds(q) && 0 <= i < |q.streams| && !(q.streams[i].limiting && HasTs(q.streams[i]))
    ensures FinishStream(q, i).headFinished == q.headFinished
  {
  }

  /** A queue that only differs in finish flags keeps its cached head. */
  lemma HeadOkUnmoved(q: Queue, r: Queue)
    requires HeadOk(q) && OnlyHeads(q, r) && r.head == q.head
    requires forall k :: 0 <= k < |q.streams| ==> r.streams[k].headTs == q.streams[k].headTs
    ensures HeadOk(r)
  {
    hide Instant;
    assert forall k :: 0 <= k < |q.streams| ==> HeadTime(r.streams[k]) == HeadTime(q.streams[k]);
  }

  lemma FinishStreamSound(q: Queue, i: int)
    requires Sound(q) && 0 <= i < |q.streams|
    ensures Sound(FinishStream(q, i)) && Grows(q, FinishStream(q, i))
    ensures FinishStream(q, i).streams[i].finished
  {
    FinishStreamOk(q, i);
    HeadOkUnmoved(q, FinishStream(q, i));
  }

  // ---- stream_update_ts ----

  /** r is q but for stream i, whose limit and finish flag are the same too. */
  ghost predicate OnlyStream(q: Queue, r: Queue, i: int) {
    && InBounds(q) && InBounds(r) && 0 <= i < |q.streams| == |r.streams|
    && r == q.(streams := q.streams[i := r.streams[i]])
    && r.streams[i].limiting == q.streams[i].limiting && r.streams[i].finished == q.streams[i].finished
  }

  /** What stream_update_ts does once the head of stream i has been set. */
  ghost function Settle(q: Queue, i: int): (r: Queue)
    requires InBounds(q) && 0 <= i < |q.streams|
    ensures InBounds(r) && OnlyHeads(q, r)
  {
    var r := if q.headFinished >= 0 && HeadTime(q.streams[q.headFinished]) <= HeadTime(q.streams[i])
             then FinishStream(q, i) else q;
    if q.streams[i].limiting && (r.head < 0 || r.head == i) then HeadUpdate(r) else r
  }

  lemma UpdateTsSettles(q: Queue, i: int, ts: int)
    requires InBounds(q) && 0 <= i < |q.streams|
    requires ts != NOPTS && !(HasTs(q.streams[i]) && q.streams[i].headTs >= ts)
    ensures UpdateTs(q, i, ts) == Settle(SetHead(q, i, ts), i)
  {
    hide Instant, FinishStream, HeadUpdate;
  }

  /** Settling after the head of an unfinished stream has moved forward, in whatever base, keeps
      everything, although the cached head is recomputed only when the head stream itself moves. */
  lemma SettleSound(q: Queue, q1: Queue, i: int)
    requires Sound(q) && OnlyStream(q, q1, i) && !q.streams[i].finished
    requires HasTs(q1.streams[i]) && Later(q.streams[i], q1.streams[i])
    ensures Sound(Settle(q1, i)) && Grows(q, Settle(q1, i))
    ensures Settle(q1, i).streams[i].headTs == q1.streams[i].headTs
  {
    hide Instant, HeadOk, FinishOk, Grows, FinishPending, FinishStream, HeadUpdate;
    OnlyStreamGrows(q, q1, i);
    OnlyStreamPending(q, q1, i);
    var finish := q1.headFinished >= 0 && HeadTime(q1.streams[q1.headFinished]) <= HeadTime(q1.streams[i]);
    var q2 := if finish then FinishStream(q1, i) else q1;
    if finish {
      FinishStreamOk(q1, i);
    } else {
      GrowsReflexive(q1);
      OnlyStreamFinishOk(q, q1, i);
    }
    GrowsTransitive(q, q1, q2);
    UpdateHeadOk(q, q2, i);
    var r := Settle(q1, i);
    FinishOkHead(q2, r);
    GrowsHead(q, q2, r);
  }

  lemma UpdateTsSound(q: Queue, i: int, ts: int)
    requires Sound(q) && 0 <= i < |q.streams| && !q.streams[i].finished
    ensures Sound(UpdateTs(q, i, ts)) && Grows(q, UpdateTs(q, i, ts))
    ensures var st := UpdateTs(q, i, ts).streams[i];
            && (ts != NOPTS ==> HasTs(st) && Instant(ts, q.streams[i].tb) <= HeadTime(st))
  {
    hide Instant, HeadOk, FinishOk, Grows, Settle;
    var st := q.streams[i];
    if ts == NOPTS || (HasTs(st) && st.headTs >= ts) {
      InstantMonotone(ts, st.headTs, st.tb);
      GrowsReflexive(q);
    } else {
      InstantMonotone(st.headTs, ts, st.tb);
      UpdateTsSettles(q, i, ts);
      SettleSound(q, SetHead(q, i, ts), i);
    }
  }

  lemma GrowsReflexive(q: Queue)
    ensures Grows(q, q)
  {
  }

  lemma GrowsHead(q: Queue, r: Queue, r': Queue)
    requires Grows(q, r) && r' == r.(head := r'.head)
    ensures Grows(q, r')
  {
  }

  lemma FinishOkHead(q: Queue, r: Queue)
    requires FinishOk(q) && r == q.(head := r.head)
    ensures FinishOk(r)
  {
  }

  lemma OnlyStreamGrows(q: Queue, r: Queue, i: int)
    requires OnlyStream(q, r, i)
    ensures Grows(q, r) <==> Later(q.streams[i], r.streams[i])
  {
    hide Instant;
    assert forall k :: 0 <= k < |q.streams| && k != i ==> r.streams[k] == q.streams[k];
  }

  lemma OnlyStreamPending(q: Queue, r: Queue, i: int)
    requires Sound(q) && OnlyStream(q, r, i) && !q.streams[i].finished
    ensures FinishPending(r, i)
  {
    hide Instant;
  }

  lemma OnlyStreamFinishOk(q: Queue, r: Queue, i: int)
    requires Sound(q) && OnlyStream(q, r, i) && !q.streams[i].finished && HasTs(r.streams[i])
    ensures FinishOk(r) <==> q.headFinished < 0 || HeadTime(r.streams[i]) < HeadTime(q.streams[q.headFinished])
  {
    hide Instant;
    assert r.streams[i].headTs != NOPTS;
    if q.headFinished >= 0 {
      assert r.streams[q.headFinished] == q.streams[q.headFinished];
    }
  }

  /** The head after stream i has moved forward: recomputed if i was the head or there was
      none, still right otherwise. */
  lemma UpdateHeadOk(q: Queue, q2: Queue, i: int)
    requires Sound(q) && InBounds(q2) && Grows(q, q2) && q2.head == q.head
    requires 0 <= i < |q.streams| && HasTs(q2.streams[i])
    requires forall k :: 0 <= k < |q.streams| && k != i ==>
               q2.streams[k].headTs == q.streams[k].headTs && q2.streams[k].tb == q.streams[k].tb
    ensures var r := if q.streams[i].limiting && (q2.head < 0 || q2.head == i) then HeadUpdate(q2) else q2;
            HeadOk(r)
  {
    hide Instant;
    if q.streams[i].limiting && (q2.head < 0 || q2.head == i) {
      assert q2.streams[i].limiting;
      HeadUpdateOk(q2);
    } else {
      assert forall k :: 0 <= k < |q.streams| && k != i ==> HeadTime(q2.streams[k]) == HeadTime(q.streams[k]);
      assert forall k :: 0 <= k < |q.streams| ==> Later(q.streams[k], q2.streams[k]);
    }
  }

  // ---- heartbeats ----

  lemma {:induction false} BeatSound(q: Queue, s: int, ts: int, k: nat)
    requires Sound(q) && 0 <= s < |q.streams| && k <= |q.streams|
    ensures Sound(Beat(q, s, ts, k)) && Grows(q, Beat(q, s, ts, k))
    decreases |q.streams| - k
  {
    hide Instant;
    GrowsReflexive(q);
    if k < |q.streams| {
      if Lags(q, s, ts, k) {
        var q1 := UpdateTs(q, k, BeatTs(q.streams[k], ts, q.streams[s].tb));
        UpdateTsSound(q, k, BeatTs(q.streams[k], ts, q.streams[s].tb));
        BeatSound(q1, s, ts, k + 1);
        GrowsTransitive(q, q1, Beat(q1, s, ts, k + 1));
      } else {
        BeatSound(q, s, ts, k + 1);
      }
    }
  }

  lemma HeartbeatSound(q: Queue, idx: int)
    requires Sound(q) && idx < |q.streams|
    ensures Sound(Heartbeat(q, idx).0) && Grows(q, Heartbeat(q, idx).0)
  {
    var s := Checked(q, idx);
    GrowsReflexive(q);
    if Heartbeat(q, idx).1 {
      BeatSound(q, s, TailTs(q.streams[s].fifo) + 1, 0);
    }
  }

  // ---- sending ----

  /** A change of time base is safe when the head is a whole number of new ticks; in
      particular the default base 1/1 may give way to any base 1/d. */
  predicate SafeBase(st: Stream, tb: Rational) {
    st.tb != tb && HasTs(st) ==>
      WholeTicks(st.headTs, st.tb, tb) && Rescale(st.headTs, st.tb, tb) != NOPTS
  }

  /** tb_update keeps a stream's head exactly under that condition. */
  lemma BaseChangeExact(st: Stream, tb: Rational)
    requires HasTs(st) && Rescale(st.headTs, st.tb, tb) != NOPTS
    ensures HeadTime(TbUpdate(st, tb)) == HeadTime(st) <==> SafeBase(st, tb)
  {
    RescaleExact(st.headTs, st.tb, tb);
  }

  lemma DefaultBaseSafe(st: Stream, tb: Rational)
    requires st.tb == Rational(1, 1) && tb.num == 1
    requires Rescale(st.headTs, st.tb, tb) != NOPTS
    ensures SafeBase(st, tb)
  {
  }

  /** Replacing a stream by one with the same head, flags and limit keeps everything. */
  lemma SetStreamSound(q: Queue, i: int, st: Stream)
    requires Sound(q) && 0 <= i < |q.streams|
    requires st.limiting == q.streams[i].limiting && st.finished == q.streams[i].finished
    requires HasTs(st) == HasTs(q.streams[i])
    requires HasTs(st) ==> HeadTime(st) == HeadTime(q.streams[i])
    requires st.finished ==> st.headTs == q.streams[i].headTs && st.tb == q.streams[i].tb
    ensures Sound(SetStream(q, i, st)) && Grows(q, SetStream(q, i, st))
  {
    var r := SetStream(q, i, st);
    forall k | 0 <= k < |q.streams|
      ensures SameHead(q.streams[k], r.streams[k]) && Later(q.streams[k], r.streams[k])
    {
    }
    SameHeadsOk(q, r);
  }

  ghost predicate SameHead(a: Stream, b: Stream) {
    && HasTs(b) == HasTs(a) && (HasTs(a) ==> HeadTime(b) == HeadTime(a))
    && b.limiting == a.limiting && b.finished == a.finished
  }

  lemma SameHeadsOk(q: Queue, r: Queue)
    requires Sound(q) && |r.streams| == |q.streams|
    requires r.head == q.head && r.headFinished == q.headFinished
    requires r.finished == q.finished && r.haveLimiting == q.haveLimiting
    requires forall k :: 0 <= k < |q.streams| ==> SameHead(q.streams[k], r.streams[k])
    ensures Sound(r)
  {
    hide HeadTime;
  }

  /** Whether this frame makes the stream reach its frame limit. */
  predicate ReachesLimit(st: Stream, f: Frame) {
    Count(st, |f.samples|).framesSent >= st.framesMax
  }

  /** Whether the head of stream i may be put at instant t without being looked at again: it does
      not pass the other heads it was the least of, and it does not reach the finished head, or
      only with the frame that ends the stream. */
  ghost predicate MayJump(q: Queue, i: int, f: Frame, t: real)
    requires InBounds(q) && 0 <= i < |q.streams|
  {
    && (q.head == i ==> forall j :: 0 <= j < |q.streams| && j != i && q.streams[j].limiting ==> t <= HeadTime(q.streams[j]))
    && (q.headFinished >= 0 && HeadTime(q.streams[q.headFinished]) <= t ==> ReachesLimit(q.streams[i], f))
  }

  /** The end of a frame in a new base is set as the head, unless the old head, rescaled, is at or
      after it. */
  predicate SetsHead(st: Stream, f: Frame) {
    var head, end := Rescale(st.headTs, st.tb, f.tb), FrameEnd(Normalise(f), 0);
    end != NOPTS && (head == NOPTS || head < end)
  }

  /** The old head rescaled is not before it, nor put forward too far. */
  ghost predicate SafeJump(q: Queue, i: int, f: Frame)
    requires InBounds(q) && 0 <= i < |q.streams|
  {
    var st := q.streams[i];
    var head := Rescale(st.headTs, st.tb, f.tb);
    && head != NOPTS && HeadTime(st) <= Instant(head, f.tb)
    && (HeadTime(st) < Instant(head, f.tb) ==> MayJump(q, i, f, Instant(head, f.tb)))
  }

  /** A frame that changes the time base may be sent when the head that comes of it, the end of the
      frame or the old head rescaled, is not before the old head, and in the latter case is not
      rounded forward past what it decides. */
  ghost predicate SafeSend(q: Queue, i: int, f: Frame)
    requires InBounds(q) && 0 <= i < |q.streams|
  {
    var st := q.streams[i];
    || st.finished || st.tb == f.tb || !HasTs(st)
    || (if SetsHead(st, f) then HeadTime(st) <= Instant(FrameEnd(Normalise(f), 0), f.tb) else SafeJump(q, i, f))
  }

  /** An exact change of base is always safe. */
  lemma SafeBaseSends(q: Queue, i: int, f: Frame)
    requires InBounds(q) && 0 <= i < |q.streams| && SafeBase(q.streams[i], f.tb)
    ensures SafeSend(q, i, f)
  {
    hide Rescale, Instant;
    var st := q.streams[i];
    if HasTs(st) && st.tb != f.tb {
      RescaleExact(st.headTs, st.tb, f.tb);
      InstantMonotone(Rescale(st.headTs, st.tb, f.tb), FrameEnd(Normalise(f), 0), f.tb);
    }
  }

  /** Sending keeps everything, and moves no head back, if and only if it is safe in that sense. */
  lemma SendFrameSoundIff(q: Queue, i: int, f: Frame)
    requires Sound(q) && 0 <= i < |q.streams|
    ensures SafeSend(q, i, f) <==> Sound(SendFrame(q, i, f)) && Grows(q, SendFrame(q, i, f))
  {
    hide Instant, HeadOk, FinishOk, Grows, Rescale, Normalise, SafeJump, SendFrame, SetsHead;
    var st := q.streams[i];
    if st.finished {
      assert SendFrame(q, i, f) == q by { SendRefused(q, i, f); }
      GrowsReflexive(q);
    } else if st.tb == f.tb || !HasTs(st) {
      SendSameBase(q, i, f);
    } else if SetsHead(st, f) {
      SendSetsHead(q, i, f);
    } else {
      SendKeepsHead(q, i, f);
    }
  }

  lemma SendRefused(q: Queue, i: int, f: Frame)
    requires InBounds(q) && 0 <= i < |q.streams| && q.streams[i].finished
    ensures SendFrame(q, i, f) == q
  {
  }

  /** The rest of sq_send, after the head has been dealt with. */
  lemma SendTail(q: Queue, i: int, f: Frame, q2: Queue)
    requires Sound(q) && Sound(q2) && Grows(q, q2) && 0 <= i < |q.streams| && !q.streams[i].finished
    requires q2 == UpdateTs(SetStream(q, i, Enqueue(q.streams[i], f)), i, FrameEnd(Normalise(f), 0))
    ensures Sound(SendFrame(q, i, f)) && Grows(q, SendFrame(q, i, f))
  {
    hide Instant, HeadOk, FinishOk, Grows, FinishStream, UpdateTs, Enqueue;
    SetStreamSound(q2, i, Count(q2.streams[i], |f.samples|));
    var q3 := SetStream(q2, i, Count(q2.streams[i], |f.samples|));
    FinishStreamSound(q3, i);
    GrowsTransitive(q, q2, q3);
    GrowsTransitive(q, q3, FinishStream(q3, i));
  }

  lemma SendSameBase(q: Queue, i: int, f: Frame)
    requires Sound(q) && 0 <= i < |q.streams| && !q.streams[i].finished
    requires q.streams[i].tb == f.tb || !HasTs(q.streams[i])
    ensures Sound(SendFrame(q, i, f)) && Grows(q, SendFrame(q, i, f))
  {
    hide Instant, HeadOk, FinishOk, Grows, UpdateTs, SendFrame;
    var st := Enqueue(q.streams[i], f);
    SetStreamSound(q, i, st);
    var q1 := SetStream(q, i, st);
    UpdateTsSound(q1, i, FrameEnd(Normalise(f), 0));
    var q2 := UpdateTs(q1, i, FrameEnd(Normalise(f), 0));
    GrowsTransitive(q, q1, q2);
    SendTail(q, i, f, q2);
  }

  /** Queue, head and counters of the stream after a send, whatever became of the flags. */
  lemma SentHead(q: Queue, i: int, f: Frame)
    requires InBounds(q) && 0 <= i < |q.streams| && !q.streams[i].finished
    ensures var st, r := q.streams[i], SendFrame(q, i, f).streams[i];
            && r.tb == f.tb
            && r.headTs == (if st.tb == f.tb || !HasTs(st) then r.headTs
                            else if SetsHead(st, f) then FrameEnd(Normalise(f), 0) else Rescale(st.headTs, st.tb, f.tb))
  {
    hide Instant, FinishStream, Rescale, Normalise, UpdateTs, HeadUpdate;
    var q1 := SetStream(q, i, Enqueue(q.streams[i], f));
    UpdateTsHead(q1, i, FrameEnd(Normalise(f), 0));
    var q2 := UpdateTs(q1, i, FrameEnd(Normalise(f), 0));
    FinishKeepsHead(SetStream(q2, i, Count(q2.streams[i], |f.samples|)), i);
  }

  lemma UpdateTsHead(q: Queue, i: int, ts: int)
    requires InBounds(q) && 0 <= i < |q.streams|
    ensures var st := q.streams[i];
            UpdateTs(q, i, ts).streams[i].headTs
            == if ts == NOPTS || (HasTs(st) && st.headTs >= ts) then st.headTs else ts
  {
    hide Instant, FinishStream, HeadUpdate;
    FinishKeepsHead(SetHead(q, i, ts), i);
  }

  lemma FinishKeepsHead(q: Queue, i: int)
    requires InBounds(q) && 0 <= i < |q.streams|
    ensures FinishStream(q, i).streams[i].headTs == q.streams[i].headTs
  {
  }

  lemma SendSetsHead(q: Queue, i: int, f: Frame)
    requires Sound(q) && 0 <= i < |q.streams| && !q.streams[i].finished
    requires q.streams[i].tb != f.tb && HasTs(q.streams[i]) && SetsHead(q.streams[i], f)
    ensures HeadTime(q.streams[i]) <= Instant(FrameEnd(Normalise(f), 0), f.tb)
       <==> Sound(SendFrame(q, i, f)) && Grows(q, SendFrame(q, i, f))
  {
    hide Instant, HeadOk, FinishOk, Rescale, Normalise, SendFrame, Settle;
    var st, end := q.streams[i], FrameEnd(Normalise(f), 0);
    var q1 := SetStream(q, i, Enqueue(st, f));
    SentHead(q, i, f);
    if HeadTime(st) <= Instant(end, f.tb) {
      UpdateTsSettles(q1, i, end);
      var moved := SetHead(q1, i, end);
      assert OnlyStream(q, moved, i);
      SettleSound(q, moved, i);
      SendTail(q, i, f, UpdateTs(q1, i, end));
    } else if Grows(q, SendFrame(q, i, f)) {
      GrowsAt(q, SendFrame(q, i, f), i);
    }
  }

  lemma SendKeepsHead(q: Queue, i: int, f: Frame)
    requires Sound(q) && 0 <= i < |q.streams| && !q.streams[i].finished
    requires q.streams[i].tb != f.tb && HasTs(q.streams[i]) && !SetsHead(q.streams[i], f)
    ensures SafeJump(q, i, f) <==> Sound(SendFrame(q, i, f)) && Grows(q, SendFrame(q, i, f))
  {
    hide Instant, HeadOk, FinishOk, Grows, Rescale, Normalise, MayJump, SendFrame;
    var st := q.streams[i];
    var head := Rescale(st.headTs, st.tb, f.tb);
    SentHead(q, i, f);
    var q3 := SetStream(q, i, Count(Enqueue(st, f), |f.samples|));
    KeptHeadSend(q, i, f);
    OnlyStreamGrows(q, q3, i);
    if head == NOPTS || Instant(head, f.tb) < HeadTime(st) {
      if Grows(q, SendFrame(q, i, f)) {
        GrowsAt(q, SendFrame(q, i, f), i);
      }
    } else if HeadTime(st) == Instant(head, f.tb) {
      SetStreamSound(q, i, q3.streams[i]);
      FinishStreamSound(q3, i);
      GrowsTransitive(q, q3, FinishStream(q3, i));
    } else {
      JumpSound(q, q3, i, f);
      if ReachesLimit(st, f) {
        OnlyStreamPending(q, q3, i);
        FinishStreamOk(q3, i);
        GrowsTransitive(q, q3, FinishStream(q3, i));
        HeadOkAlike(q3, FinishStream(q3, i));
      }
    }
  }

  lemma GrowsAt(q: Queue, r: Queue, i: int)
    requires Grows(q, r) && 0 <= i < |q.streams|
    ensures Later(q.streams[i], r.streams[i])
  {
  }

  lemma KeptHeadSend(q: Queue, i: int, f: Frame)
    requires InBounds(q) && 0 <= i < |q.streams| && !q.streams[i].finished
    requires q.streams[i].tb != f.tb && HasTs(q.streams[i]) && !SetsHead(q.streams[i], f)
    ensures var st := q.streams[i];
            var q3 := SetStream(q, i, Count(Enqueue(st, f), |f.samples|));
            && OnlyStream(q, q3, i)
            && q3.streams[i].headTs == Rescale(st.headTs, st.tb, f.tb) && q3.streams[i].tb == f.tb
            && SendFrame(q, i, f) == (if ReachesLimit(st, f) then FinishStream(q3, i) else q3)
  {
    hide Instant, FinishStream, Rescale, Normalise, HeadUpdate;
    var st := q.streams[i];
    var q1 := SetStream(q, i, Enqueue(st, f));
    if Rescale(st.headTs, st.tb, f.tb) == NOPTS || FrameEnd(Normalise(f), 0) == NOPTS {
      assert UpdateTs(q1, i, FrameEnd(Normalise(f), 0)) == q1;
    }
    assert UpdateTs(q1, i, FrameEnd(Normalise(f), 0)) == q1;
    assert SetStream(q1, i, Count(q1.streams[i], |f.samples|)) == SetStream(q, i, Count(Enqueue(st, f), |f.samples|));
  }

  /** Head and finish closure with stream i put forward and not looked at again. */
  lemma JumpSound(q: Queue, q3: Queue, i: int, f: Frame)
    requires Sound(q) && OnlyStream(q, q3, i) && !q.streams[i].finished
    requires HasTs(q.streams[i]) && HasTs(q3.streams[i]) && HeadTime(q.streams[i]) < HeadTime(q3.streams[i])
    ensures HeadOk(q3) <==>
              (q.head == i ==> forall j :: 0 <= j < |q.streams| && j != i && q.streams[j].limiting ==>
                                 HeadTime(q3.streams[i]) <= HeadTime(q.streams[j]))
    ensures MayJump(q, i, f, HeadTime(q3.streams[i])) <==> HeadOk(q3) && (FinishOk(q3) || ReachesLimit(q.streams[i], f))
  {
    hide Instant;
    OnlyStreamFinishOk(q, q3, i);
    assert forall k :: 0 <= k < |q.streams| && k != i ==> q3.streams[k] == q.streams[k];
  }

  lemma HeadOkAlike(q: Queue, r: Queue)
    requires OnlyHeads(q, r) && r.head == q.head
    requires forall k :: 0 <= k < |q.streams| ==> r.streams[k].headTs == q.streams[k].headTs
    ensures HeadOk(r) <==> HeadOk(q)
  {
    hide Instant;
    assert forall k :: 0 <= k < |q.streams| ==> HeadTime(r.streams[k]) == HeadTime(q.streams[k]);
  }

  lemma LimitFramesSound(q: Queue, i: int, frames: nat)
    requires Sound(q) && 0 <= i < |q.streams|
    ensures Sound(LimitFrames(q, i, frames)) && Grows(q, LimitFrames(q, i, frames))
  {
    var q1 := SetStream(q, i, q.streams[i].(framesMax := frames));
    SetStreamSound(q, i, q.streams[i].(framesMax := frames));
    FinishStreamSound(q1, i);
    GrowsTransitive(q, q1, FinishStream(q1, i));
  }

  // ---- receiving ----

  lemma ReceiveInternalSound(q: Queue, idx: int)
    requires Sound(q) && AllCountable(q) && idx < |q.streams|
    ensures var r := ReceiveInternal(q, idx).0; Sound(r) && Grows(q, r)
  {
    hide Instant;
    GrowsReflexive(q);
    var r := ReceiveInternal(q, idx);
    if r.1.Got? {
      SetStreamSound(q, r.1.idx, TakeOutput(q.streams[r.1.idx]).1);
    }
  }

  lemma ReceiveSound(q: Queue, idx: int)
    requires Sound(q) && AllCountable(q) && idx < |q.streams|
    ensures var r := Receive(q, idx).0; Sound(r) && Grows(q, r)
  {
    ReceiveInternalSound(q, idx);
    var q1 := Heartbeat(q, idx).0;
    HeartbeatSound(q, idx);
    ReceiveInternalSound(q1, idx);
    GrowsTransitive(q, q1, ReceiveInternal(q1, idx).0);
  }
}
