/** When the sync queue releases, asks for more, ends and sends heartbeats, and where it puts the
heads, in terms of what is queued (fftools/sync_queue.c:117-169, 277-430, 524-618). */
module SyncAnswers {
  import opened Arithmetic
  import opened Time
  import opened SyncModel
  import opened SyncHeads
  import opened SyncSamples
  import opened SyncRuns
  import opened SyncBuffering
  import opened SyncBeats

  // ---- heads after a send ----

  /** Where the queued frame ends, in its own base. */
  function SentEnd(f: Frame): int {
    f.pts + if f.samples == [] then f.duration else SampleTicks(f, |f.samples|)
  }

  /** The old head in the base of the frame. */
  function OldHead(st: Stream, f: Frame): int {
    if HasTs(st) && st.tb != f.tb then Rescale(st.headTs, st.tb, f.tb) else st.headTs
  }

  /** An accepted frame puts the head of its stream at its end, unless the head is there or further;
      no other head moves. */
  lemma SendHeads(q: Queue, i: nat, f: Frame, k: nat)
    requires InBounds(q) && i < |q.streams| && k < |q.streams| && !q.streams[i].finished
    ensures var st, r := q.streams[i], SendFrame(q, i, f);
            var end, was := SentEnd(f), OldHead(st, f);
            && (k != i ==> r.streams[k] == q.streams[k].(finished := r.streams[k].finished))
            && r.streams[i].tb == f.tb
            && r.streams[i].headTs == if end != NOPTS && (was == NOPTS || was < end) then end else was
  {
    hide Instant, FinishStream, Rescale, UpdateTs;
    var q1 := SetStream(q, i, Enqueue(q.streams[i], f));
    var end := FrameEnd(Normalise(f), 0);
    UpdateTsHead(q1, i, end);
    UpdateOthers(q1, i, end, k);
    var q2 := UpdateTs(q1, i, end);
    var q3 := SetStream(q2, i, Count(q2.streams[i], |f.samples|));
    FinishFlagsOnly(q3, i, k);
    FinishFlagsOnly(q3, i, i);
  }

  lemma FinishFlagsOnly(q: Queue, i: int, k: int)
    requires InBounds(q) && 0 <= i < |q.streams| && 0 <= k < |q.streams|
    ensures FinishStream(q, i).streams[k] == q.streams[k].(finished := FinishStream(q, i).streams[k].finished)
  {
  }

  lemma UpdateOthers(q: Queue, i: int, ts: int, k: int)
    requires InBounds(q) && 0 <= i < |q.streams| && 0 <= k < |q.streams|
    ensures var r := UpdateTs(q, i, ts).streams[k];
            r == q.streams[k].(finished := r.finished, headTs := if k == i then r.headTs else q.streams[k].headTs)
  {
    hide Instant, FinishStream, HeadUpdate;
    FinishFlagsOnly(SetHead(q, i, ts), i, k);
  }

  /** A change of base moves a head by at most half a tick of the new base. */
  lemma BaseChangeClose(st: Stream, tb: Rational)
    requires HasTs(st)
    ensures st.tb == tb ==> TbUpdate(st, tb) == st
    ensures TbUpdate(st, tb).tb == tb
    ensures -Tick(tb) <= 2.0 * (Instant(TbUpdate(st, tb).headTs, tb) - HeadTime(st)) <= Tick(tb)
  {
    if st.tb != tb {
      RescaleClose(st.headTs, st.tb, tb);
    }
    hide Tick;
  }

  // ---- samples and ticks ----

  /** The length of n samples is right to half a tick, in any base. */
  lemma TicksClose(f: Frame, n: nat)
    ensures -Tick(f.tb) <= 2.0 * (Instant(SampleTicks(f, n), f.tb) - n as real / f.rate as real) <= Tick(f.tb)
  {
    RescaleClose(n, Rational(1, f.rate), f.tb);
    hide Rescale;
    assert Instant(n, Rational(1, f.rate)) == n as real * (1.0 / f.rate as real) == n as real / f.rate as real;
  }

  /** What is left of a cut frame starts where the cut ended and lasts as long as its samples, each to
      half a tick. */
  lemma TrimClose(f: Frame, n: nat)
    requires n < |f.samples|
    ensures var g, left := Trim(f, n), (|f.samples| - n) as real / f.rate as real;
            && g.samples == f.samples[n..] && g.tb == f.tb && g.rate == f.rate && g.props == f.props
            && g.pts == FrameEnd(f, n) + (if n == 0 then SampleTicks(f, 0) - f.duration else 0)
            && -Tick(f.tb) <= 2.0 * (Instant(g.pts - f.pts, f.tb) - n as real / f.rate as real) <= Tick(f.tb)
            && -Tick(f.tb) <= 2.0 * (Instant(g.duration, f.tb) - left) <= Tick(f.tb)
  {
    TicksClose(f, n);
    TicksClose(f, |f.samples| - n);
    hide Instant, Tick, SampleTicks;
  }

  // ---- release ----

  /** The release test decides as InternalGotIff says: with samples of one frame size queued, and no
      limiting head before their end, a receive yields a frame. */
  lemma EnoughReleases(q: Queue, i: nat)
    requires Inv(q) && AllCountable(q) && i < |q.streams|
    requires var st := q.streams[i];
             && st.fifo != [] && st.frameSamples <= Total(st.fifo)
             && var end := FrameEnd(st.fifo[0], st.frameSamples);
                forall j :: 0 <= j < |q.streams| && q.streams[j].limiting ==>
                  HasTs(q.streams[j]) && Instant(end, st.tb) <= HeadTime(q.streams[j])
    ensures ReceiveInternal(q, i).1.Got?
  {
    hide Instant, HeadOk, FinishOk, StreamsOk, ReceiveInternal, AllCountable;
    assert Passes(q.streams, i);
    InternalGotIff(q, i);
  }

  /** And as long as fewer are queued and more may come, none. */
  lemma TooFewHeld(q: Queue, i: nat)
    requires Inv(q) && AllCountable(q) && i < |q.streams|
    requires Total(q.streams[i].fifo) < q.streams[i].frameSamples && !q.streams[i].finished
    ensures ReceiveInternal(q, i).1.Again?
  {
    assert Countable(q.streams[i]);
    hide Instant, HeadOk, Total;
  }

  /** Nothing more will come of stream i: all have finished, or it has and nothing is queued. */
  predicate AtEnd(streams: seq<Stream>, i: int)
    requires 0 <= i < |streams|
  {
    AllFinished(streams) || (streams[i].finished && streams[i].fifo == [])
  }

  /** What a receive without a heartbeat answers: a frame of the first stream asked that passes the
      release test, else the end if that is all that is left to all of them, else to try again. */
  lemma InternalAnswer(q: Queue, idx: int)
    requires Inv(q) && AllCountable(q) && idx < |q.streams|
    ensures match ReceiveInternal(q, idx).1
            case Got(i, f) =>
              i < |q.streams| && Passes(q.streams, i)
              && (if idx >= 0 then i == idx else forall j :: 0 <= j < i ==> !Passes(q.streams, j))
            case Eof => forall j :: 0 <= j < |q.streams| && (idx < 0 || j == idx) ==>
                          !Passes(q.streams, j) && AtEnd(q.streams, j)
            case Again => exists j :: 0 <= j < |q.streams| && (idx < 0 || j == idx) && !AtEnd(q.streams, j)
                            && forall k :: 0 <= k < |q.streams| && (idx < 0 || k == idx) ==> !Passes(q.streams, k)
  {
    if idx >= 0 {
      AnswerOf(q, idx);
    } else {
      ScanAnswer(q, 0, 0);
    }
    hide HeadOk, Passes, AllCountable, Releasable, InBounds, AtEnd, ReceiveFor, ReceiveFrom;
  }

  /** Only where that says to try again may a heartbeat follow; else no head moves. */
  lemma AnsweredAtOnce(q: Queue, idx: int)
    requires Inv(q) && AllCountable(q) && idx < |q.streams| && !ReceiveInternal(q, idx).1.Again?
    ensures Receive(q, idx) == ReceiveInternal(q, idx)
    ensures var r := Receive(q, idx).0;
            forall k :: 0 <= k < |q.streams| ==>
              r.streams[k] == q.streams[k].(fifo := r.streams[k].fifo, samplesQueued := r.streams[k].samplesQueued)
  {
    hide Releasable, Heartbeat, HeadOk, FinishOk, Rescale;
  }

  lemma AnswerOf(q: Queue, i: nat)
    requires Inv(q) && AllCountable(q) && i < |q.streams|
    ensures var out := ReceiveFor(q, i).1;
            && (out.Got? <==> Passes(q.streams, i))
            && (out.Eof? <==> !Passes(q.streams, i) && AtEnd(q.streams, i))
  {
    assert Countable(q.streams[i]);
    ReleasableIff(q, i);
    hide HeadOk, Passes, Releasable, InBounds, AllCountable, StreamsOk;
  }

  lemma {:induction false} ScanAnswer(q: Queue, k: nat, eofs: nat)
    requires Inv(q) && AllCountable(q) && k <= |q.streams| && eofs <= k
    requires forall j :: 0 <= j < k ==> !Passes(q.streams, j)
    requires eofs == k <==> forall j :: 0 <= j < k ==> AtEnd(q.streams, j)
    ensures match ReceiveFrom(q, k, eofs).1
            case Got(i, f) => i < |q.streams| && Passes(q.streams, i) && forall j :: 0 <= j < i ==> !Passes(q.streams, j)
            case Eof => forall j :: 0 <= j < |q.streams| ==> !Passes(q.streams, j) && AtEnd(q.streams, j)
            case Again => (forall j :: 0 <= j < |q.streams| ==> !Passes(q.streams, j))
                          && exists j :: 0 <= j < |q.streams| && !AtEnd(q.streams, j)
    decreases |q.streams| - k
  {
    hide HeadOk, FinishOk, Passes, Releasable, InBounds, AllCountable, StreamsOk, ReceiveFor, AtEnd;
    if k < |q.streams| {
      AnswerOf(q, k);
      if !Passes(q.streams, k) {
        ScanAnswer(q, k + 1, if ReceiveFor(q, k).1.Eof? then eofs + 1 else eofs);
      }
    }
  }

  // ---- heartbeats ----

  /** The stream a receive looks at: the one asked for, or the first of those whose head is latest. */
  ghost predicate Watched(q: Queue, idx: int, s: int)
    requires 0 <= s < |q.streams|
  {
    if idx >= 0 then s == idx
    else
      && HasTs(q.streams[s])
      && forall j :: 0 <= j < |q.streams| && j != s && HasTs(q.streams[j]) ==>
           if j < s then HeadTime(q.streams[j]) < HeadTime(q.streams[s]) else HeadTime(q.streams[j]) <= HeadTime(q.streams[s])
  }

  /** Frame n is the first queued one whose end is known. */
  predicate FirstTimed(fifo: seq<Frame>, n: int) {
    && 0 <= n < |fifo| && fifo[n].pts + fifo[n].duration != NOPTS
    && forall m :: 0 <= m < n ==> fifo[m].pts + fifo[m].duration == NOPTS
  }

  /** The head is past the end of frame f by the length of the buffer, to the nearest microsecond. */
  predicate FarBehind(st: Stream, f: Frame, bufSize: int) {
    var behind := st.headTs - (f.pts + f.duration);
    behind > 0 && 2 * (behind * Product(st.tb.num, 1_000_000)) + st.tb.den >= 2 * (bufSize * st.tb.den)
  }

  lemma {:induction false} FirstIsTail(fifo: seq<Frame>, n: int)
    requires FirstTimed(fifo, n)
    ensures TailTs(fifo) == fifo[n].pts + fifo[n].duration
    decreases n
  {
    if n > 0 {
      assert fifo[0].pts + fifo[0].duration == NOPTS;
      FirstIsTail(fifo[1..], n - 1);
    }
  }

  lemma {:induction false} TailIsFirst(fifo: seq<Frame>) returns (n: int)
    requires TailTs(fifo) != NOPTS
    ensures FirstTimed(fifo, n)
  {
    n := 0;
    if fifo[0].pts + fifo[0].duration == NOPTS {
      n := TailIsFirst(fifo[1..]);
      n := n + 1;
      forall m | 0 <= m < n
        ensures fifo[m].pts + fifo[m].duration == NOPTS
      {
        assert m > 0 ==> fifo[m] == fifo[1..][m - 1];
      }
    }
  }

  lemma NearAtLeast(a: nat, b: Pos, c: Pos, bound: int)
    ensures RescaleNear(a, b, c) >= bound <==> 2 * (a * b) + c >= 2 * (bound * c)
  {
    DivFloor(a * b + c / 2, c, bound);
    assert c == 2 * (c / 2) + c % 2;
  }

  lemma OverflowsIff(st: Stream, bufSize: int)
    ensures Overflows(st, bufSize) <==> exists n :: FirstTimed(st.fifo, n) && FarBehind(st, st.fifo[n], bufSize)
  {
    var tail := TailTs(st.fifo);
    if tail != NOPTS {
      var n := TailIsFirst(st.fifo);
    }
    forall n | FirstTimed(st.fifo, n)
      ensures FarBehind(st, st.fifo[n], bufSize) <==> Overflows(st, bufSize)
    {
      FarIsOverflow(st, bufSize, n);
    }
    hide TailTs, FirstTimed, FarBehind;
  }

  lemma FarIsOverflow(st: Stream, bufSize: int, n: int)
    requires FirstTimed(st.fifo, n)
    ensures FarBehind(st, st.fifo[n], bufSize) <==> Overflows(st, bufSize)
  {
    FirstIsTail(st.fifo, n);
    var tail := TailTs(st.fifo);
    if tail < st.headTs {
      NearAtLeast(st.headTs - tail, Product(st.tb.num, 1_000_000), Product(1, st.tb.den), bufSize);
      assert Product(1, st.tb.den) == st.tb.den;
    }
    hide TailTs;
  }

  lemma CheckedIff(q: Queue, idx: int, s: int)
    requires InBounds(q) && idx < |q.streams| && 0 <= s < |q.streams|
    ensures Checked(q, idx) == s <==> Watched(q, idx, s)
  {
    if idx < 0 {
      MostAheadIsLatest(q.streams, -1, 0);
      MostAheadIsFirst(q.streams, -1, 0);
    }
    hide Instant, MostAhead;
  }

  lemma {:induction false} MostAheadIsFirst(streams: seq<Stream>, best: int, k: nat)
    requires -1 <= best < |streams| && k <= |streams| && (best >= 0 ==> HasTs(streams[best]))
    ensures var r := MostAhead(streams, best, k);
            && (r == best || r >= k)
            && (r != best && best >= 0 ==> HeadTime(streams[best]) < HeadTime(streams[r]))
            && (r != best ==> forall j :: k <= j < r && HasTs(streams[j]) ==> HeadTime(streams[j]) < HeadTime(streams[r]))
    decreases |streams| - k
  {
    hide Instant;
    if k < |streams| {
      var ahead := HasTs(streams[k]) && (best < 0 || HeadTime(streams[best]) < HeadTime(streams[k]));
      MostAheadIsFirst(streams, if ahead then k else best, k + 1);
    }
  }

  /** A heartbeat is due if and only if the watched stream holds a frame of known end whose first lies
      the length of the buffer behind the head. */
  lemma HeartbeatIff(q: Queue, idx: int)
    requires InBounds(q) && idx < |q.streams|
    ensures Heartbeat(q, idx).1 <==>
              exists s, n :: 0 <= s < |q.streams| && Watched(q, idx, s)
                && FirstTimed(q.streams[s].fifo, n) && FarBehind(q.streams[s], q.streams[s].fifo[n], q.bufSize)
  {
    var s := Checked(q, idx);
    if s >= 0 {
      CheckedIff(q, idx, s);
      OverflowsIff(q.streams[s], q.bufSize);
    }
    if exists s, n :: 0 <= s < |q.streams| && Watched(q, idx, s) && FirstTimed(q.streams[s].fifo, n)
                      && FarBehind(q.streams[s], q.streams[s].fifo[n], q.bufSize) {
      var s, n :| 0 <= s < |q.streams| && Watched(q, idx, s) && FirstTimed(q.streams[s].fifo, n)
                  && FarBehind(q.streams[s], q.streams[s].fifo[n], q.bufSize);
      CheckedIff(q, idx, s);
    }
    hide Watched, FirstTimed, FarBehind, Overflows, Checked;
  }

  /** Below the limit nothing is faked: the heads stay, and the receive is one without a heartbeat. */
  lemma QuietBelow(q: Queue, idx: int, s: nat, n: nat)
    requires InBounds(q) && AllCountable(q) && idx < |q.streams| && s < |q.streams| && Watched(q, idx, s)
    requires FirstTimed(q.streams[s].fifo, n) && !FarBehind(q.streams[s], q.streams[s].fifo[n], q.bufSize)
    ensures Heartbeat(q, idx) == (q, false) && Receive(q, idx) == ReceiveInternal(q, idx)
  {
    CheckedIff(q, idx, s);
    FarIsOverflow(q.streams[s], q.bufSize, n);
    hide Watched, FarBehind, FirstTimed, Overflows, Checked, Beat, ReceiveInternal, AllCountable, InBounds;
  }

  /** Whom a heartbeat moves, and how far: every other unfinished stream without a head or with one
      before the tick past the tail. Its head gets there to half a tick of its own, and at least one
      tick on; nobody else's moves. */
  lemma FakeTimestamp(q: Queue, s: int, ts: int, j: int)
    requires InBounds(q) && 0 <= s < |q.streams| && 0 <= j < |q.streams|
    ensures var st, r := q.streams[j], Beaten(q, s, ts, j);
            var tick, gap := Tick(st.tb), Instant(r.headTs, st.tb) - Instant(ts, q.streams[s].tb);
            if j != s && !st.finished && (HasTs(st) ==> HeadTime(st) < Instant(ts, q.streams[s].tb)) then
              || (r == st && (Rescale(ts, q.streams[s].tb, st.tb) == NOPTS || st.headTs + 1 == NOPTS))
              || (&& r == st.(headTs := r.headTs, finished := r.finished)
                  && (HasTs(st) ==> r.headTs > st.headTs)
                  && (-tick <= 2.0 * gap <= tick || (HasTs(st) && r.headTs == st.headTs + 1 && 2.0 * gap >= -tick)))
            else r == st
  {
    var st := q.streams[j];
    RescaleClose(ts, q.streams[s].tb, st.tb);
    var near := Rescale(ts, q.streams[s].tb, st.tb);
    if HasTs(st) && near < st.headTs + 1 {
      InstantMonotone(near, st.headTs + 1, st.tb);
    }
    hide Instant, Tick, Rescale;
  }
}
