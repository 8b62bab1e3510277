/** What a heartbeat does, in closed form, and exactly when it helps (fftools/sync_queue.c:277-341,
608-618). */
module SyncBeats {
  import opened Arithmetic
  import opened Time
  import opened SyncModel
  import opened SyncHeads
  import opened SyncSamples
  import opened SyncRuns
  import opened SyncBuffering

  /** A head moved to `ts` meets the finished head, so its stream finishes. */
  ghost predicate MeetsFinished(q: Queue, ts: int, tb: Rational)
    requires InBounds(q)
  {
    q.headFinished >= 0 && HeadTime(q.streams[q.headFinished]) <= Instant(ts, tb)
  }

  /** Stream j after the loop, from the queue before it: neither the order of the streams nor what
      the loop did to the others matters. */
  ghost function Beaten(q: Queue, s: int, ts: int, j: int): Stream
    requires InBounds(q) && 0 <= s < |q.streams| && 0 <= j < |q.streams|
  {
    var st := q.streams[j];
    var b := BeatTs(st, ts, q.streams[s].tb);
    if Lags(q, s, ts, j) && b != NOPTS then st.(headTs := b, finished := MeetsFinished(q, b, st.tb)) else st
  }

  /** The finish closure already holds, so a moved head finishes its own stream at most. */
  lemma UpdateOne(q: Queue, k: nat, ts: int)
    requires Sound(q) && k < |q.streams| && !q.streams[k].finished && ts != NOPTS
    requires HasTs(q.streams[k]) ==> q.streams[k].headTs < ts
    ensures var st := q.streams[k];
            var r := UpdateTs(q, k, ts);
            && r.headFinished == q.headFinished
            && r.streams == q.streams[k := st.(headTs := ts, finished := MeetsFinished(q, ts, st.tb))]
  {
    hide Instant, HeadUpdate, HeadOk;
    var q1 := SetHead(q, k, ts);
    var r := UpdateTs(q, k, ts);
    forall j | 0 <= j < |q.streams|
      ensures r.streams[j] == (if j == k then q.streams[k].(headTs := ts, finished := MeetsFinished(q, ts, q.streams[k].tb))
                               else q.streams[j])
    {
      if MeetsFinished(q, ts, q.streams[k].tb) && q.streams[k].limiting {
        assert FinishedMark(q1, k) == q.headFinished;
        assert Beyond(q1.streams, q.headFinished, j) && j != k ==> q.streams[j].finished;
      }
    }
  }

  lemma BeatOneIs(q: Queue, s: int, ts: int, k: nat)
    requires Sound(q) && 0 <= s < |q.streams| && k < |q.streams|
    ensures var r := BeatOne(q, s, ts, k);
            && Sound(r) && r.headFinished == q.headFinished
            && r.streams == q.streams[k := Beaten(q, s, ts, k)]
            && (Beaten(q, s, ts, k) != q.streams[k] ==> k != s && k != q.headFinished)
  {
    var b := BeatTs(q.streams[k], ts, q.streams[s].tb);
    if Lags(q, s, ts, k) {
      UpdateTsSound(q, k, b);
      if b != NOPTS {
        UpdateOne(q, k, b);
      }
    }
    hide Instant, UpdateTs, HeadOk, Rescale;
  }

  lemma {:induction false} BeatIs(q: Queue, s: int, ts: int, k: nat)
    requires Sound(q) && 0 <= s < |q.streams| && k <= |q.streams|
    ensures var r := Beat(q, s, ts, k);
            && r.headFinished == q.headFinished
            && forall j :: 0 <= j < |q.streams| ==> r.streams[j] == if j < k then q.streams[j] else Beaten(q, s, ts, j)
    decreases |q.streams| - k
  {
    if k < |q.streams| {
      var q1 := BeatOne(q, s, ts, k);
      BeatOneIs(q, s, ts, k);
      BeatIs(q1, s, ts, k + 1);
      forall j | k < j < |q.streams|
        ensures Beaten(q1, s, ts, j) == Beaten(q, s, ts, j)
      {
        SameBeaten(q, q1, s, ts, j);
      }
      hide Beat, BeatOne, Beaten, Sound, InBounds;
    }
  }

  lemma SameBeaten(q: Queue, r: Queue, s: int, ts: int, j: int)
    requires InBounds(q) && InBounds(r) && |r.streams| == |q.streams| && 0 <= s < |q.streams| && 0 <= j < |q.streams|
    requires r.headFinished == q.headFinished && r.streams[s] == q.streams[s] && r.streams[j] == q.streams[j]
    requires q.headFinished >= 0 ==> r.streams[q.headFinished] == q.streams[q.headFinished]
    ensures Beaten(r, s, ts, j) == Beaten(q, s, ts, j)
  {
    hide Instant, Rescale;
  }

  /** The release test against every limiting head instead of the cached one. */
  ghost predicate Passes(streams: seq<Stream>, i: int)
    requires 0 <= i < |streams|
  {
    var st := streams[i];
    && Filled(st)
    && var end := FrameEnd(st.fifo[0], NextSize(st));
       || end == NOPTS
       || forall j :: 0 <= j < |streams| && streams[j].limiting ==>
            HasTs(streams[j]) && Instant(end, st.tb) <= HeadTime(streams[j])
  }

  lemma ReleasableIff(q: Queue, i: int)
    requires InBounds(q) && HeadOk(q) && 0 <= i < |q.streams| && Countable(q.streams[i])
    ensures Releasable(q, i) <==> Passes(q.streams, i)
  {
    if Releasable(q, i) {
      ReleasableBehindHeads(q, i);
    }
    hide Instant, Rescale;
  }

  ghost predicate SomePasses(streams: seq<Stream>, idx: int) {
    exists i :: 0 <= i < |streams| && (idx < 0 || i == idx) && Passes(streams, i)
  }

  /** A receive without a heartbeat returns a frame if and only if a stream it asks passes the test. */
  lemma InternalGotIff(q: Queue, idx: int)
    requires InBounds(q) && HeadOk(q) && AllCountable(q) && idx < |q.streams|
    ensures ReceiveInternal(q, idx).1.Got? <==> SomePasses(q.streams, idx)
  {
    assert forall i :: 0 <= i < |q.streams| ==> Countable(q.streams[i]);
    hide HeadOk, Passes, ReceiveInternal, AllCountable, InBounds, Releasable, Countable;
    if ReceiveInternal(q, idx).1.Got? {
      ReleasableIff(q, ReceiveInternal(q, idx).1.idx);
    }
    if SomePasses(q.streams, idx) {
      var i :| 0 <= i < |q.streams| && (idx < 0 || i == idx) && Passes(q.streams, i);
      ReleasableIff(q, i);
      InternalGot(q, idx, i);
    }
  }

  ghost function AllBeaten(q: Queue, s: int): (r: seq<Stream>)
    requires InBounds(q) && 0 <= s < |q.streams|
  {
    seq(|q.streams|, j requires 0 <= j < |q.streams| => Beaten(q, s, TailTs(q.streams[s].fifo) + 1, j))
  }

  /** When nothing can be released and the checked stream overflows, the retry returns a frame if and
      only if one passes with the fake timestamps in place: for every queue, mix of bases, frame
      size and set of finished streams. */
  lemma RetryIff(q: Queue, idx: int)
    requires Inv(q) && AllCountable(q) && idx < |q.streams|
    requires ReceiveInternal(q, idx).1.Again? && Heartbeat(q, idx).1
    ensures Receive(q, idx).1.Got? <==> SomePasses(AllBeaten(q, Checked(q, idx)), idx)
  {
    hide HeadOk, FinishOk, StreamsOk, InBounds, Beaten, ReceiveInternal, AllCountable, SomePasses, Beat, Overflows;
    var s, q1 := Checked(q, idx), Heartbeat(q, idx).0;
    HeartbeatSound(q, idx);
    OnlyHeadsKeepsBuffers(q, q1);
    CountableFromOk(q1);
    BeatIs(q, s, TailTs(q.streams[s].fifo) + 1, 0);
    assert q1.streams == AllBeaten(q, s);
    InternalGotIff(q1, idx);
  }
}
