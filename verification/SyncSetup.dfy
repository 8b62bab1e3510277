/** Setting up a sync queue: streams are added, some with a frame limit at once
(fftools/ffmpeg_mux_init.c:1893-1937, fftools/sync_queue.c:620-659). */
module SyncSetup {
  import opened Time
  import opened Wrappers
  import opened SyncModel
  import opened SyncHeads
  import opened SyncSamples
  import opened SyncRuns

  /** Adding a stream to a queue in order, at any time, leaves it in order exactly if the queue has
      not finished and, for a limiting stream, no head has been determined yet. */
  lemma AddStreamInvIff(q: Queue, limiting: bool)
    requires Inv(q)
    ensures Inv(AddStream(q, limiting)) <==> !q.finished && !(limiting && q.head >= 0)
  {
    hide Instant;
    var r := AddStream(q, limiting);
    var n := |q.streams|;
    assert forall k :: 0 <= k < n ==> r.streams[k] == q.streams[k];
    assert r.streams[n] == NewStream(limiting);
    assert !HasTs(r.streams[n]) && !r.streams[n].finished;
    AddStreamBasic(q, limiting);
  }

  lemma AddStreamBasic(q: Queue, limiting: bool)
    requires Basic(q)
    ensures Basic(AddStream(q, limiting))
  {
    var r := AddStream(q, limiting);
    forall k | 0 <= k < |r.streams|
      ensures StreamOk(r.streams[k])
    {
      assert k < |q.streams| ==> StreamOk(q.streams[k]);
    }
    if q.haveLimiting {
      var k :| 0 <= k < |q.streams| && q.streams[k].limiting;
      assert r.streams[k].limiting;
    }
    assert r.streams[|q.streams|].limiting == limiting;
    assert forall k :: 0 <= k < |q.streams| ==> r.streams[k] == q.streams[k];
  }

  /** One turn of the set-up loop. */
  datatype Added = Added(limiting: bool, limit: Option<nat>)

  ghost function Setup(items: seq<Added>, bufSize: int): (q: Queue)
    ensures InBounds(q) && |q.streams| == |items|
  {
    if items == [] then Queue([], false, -1, -1, bufSize, false)
    else
      var n := |items| - 1;
      var q := AddStream(Setup(items[..n], bufSize), items[n].limiting);
      SetupBounds(Setup(items[..n], bufSize), items[n].limiting);
      if items[n].limit.Some? then LimitFrames(q, n, items[n].limit.value) else q
  }

  lemma SetupBounds(q: Queue, limiting: bool)
    requires InBounds(q)
    ensures InBounds(AddStream(q, limiting))
  {
    var r := AddStream(q, limiting);
    if q.haveLimiting {
      var k :| 0 <= k < |q.streams| && q.streams[k].limiting;
      assert r.streams[k].limiting;
    }
    assert r.streams[|q.streams|].limiting == limiting;
    assert forall k :: 0 <= k < |q.streams| ==> r.streams[k] == q.streams[k];
  }

  predicate LimitedToNone(item: Added) {
    item.limit == Some(0)
  }

  /** A stream as the loop leaves it: finished exactly if it is limited to no frames. */
  function SetUp(item: Added): Stream {
    var st := NewStream(item.limiting);
    if item.limit.None? then st else st.(framesMax := item.limit.value, finished := item.limit.value == 0)
  }

  /** The whole queue: nothing but the first stream's limit decides its finish flag. */
  lemma {:induction false} SetupState(items: seq<Added>, bufSize: int)
    ensures var q := Setup(items, bufSize);
            && (forall k :: 0 <= k < |items| ==> q.streams[k] == SetUp(items[k]))
            && q.head == -1 && q.headFinished == -1 && q.bufSize == bufSize
            && (q.finished <==> items != [] && LimitedToNone(items[0]))
  {
    if items != [] {
      var n := |items| - 1;
      SetupState(items[..n], bufSize);
      var q0 := Setup(items[..n], bufSize);
      var q1 := AddStream(q0, items[n].limiting);
      hide Instant, LimitFrames;
      forall k | 0 <= k < n
        ensures q1.streams[k] == SetUp(items[k])
      {
        assert items[..n][k] == items[k];
      }
      assert q1.streams[n] == NewStream(items[n].limiting);
      if items[n].limit.Some? {
        SetupLimit(q1, n, items[n].limit.value);
      }
    }
  }

  /** sq_limit_frames on a stream that has just been added. */
  lemma SetupLimit(q: Queue, n: nat, frames: nat)
    requires InBounds(q) && n < |q.streams| && q.head == -1 && q.headFinished == -1
    requires q.streams[n] == NewStream(q.streams[n].limiting)
    ensures var r := LimitFrames(q, n, frames);
            && r.streams == q.streams[n := q.streams[n].(framesMax := frames, finished := frames == 0)]
            && r.head == -1 && r.headFinished == -1 && r.bufSize == q.bufSize
            && (r.finished <==> q.finished || (frames == 0 && forall k :: 0 <= k < |q.streams| && k != n ==> q.streams[k].finished))
  {
    hide Instant;
    var r := LimitFrames(q, n, frames);
    assert r.streams == q.streams[n := q.streams[n].(framesMax := frames, finished := frames == 0)];
    if frames == 0 {
      assert r.finished <==> q.finished || AllFinished(r.streams);
      assert AllFinished(r.streams) <==> forall k :: 0 <= k < |q.streams| && k != n ==> r.streams[k].finished;
      assert forall k :: 0 <= k < |q.streams| && k != n ==> r.streams[k] == q.streams[k];
    }
  }

  /** The set-up ends in order exactly if the first stream is not limited to no frames, or all
      streams are. */
  lemma SetupInvIff(items: seq<Added>, bufSize: int)
    requires items != []
    ensures Inv(Setup(items, bufSize)) <==>
              !LimitedToNone(items[0]) || forall k :: 0 <= k < |items| ==> LimitedToNone(items[k])
  {
    SetupState(items, bufSize);
    FreshInvIff(Setup(items, bufSize), items);
  }

  /** A queue of streams that have sent nothing. */
  lemma FreshInvIff(q: Queue, items: seq<Added>)
    requires InBounds(q) && q.head == -1 && q.headFinished == -1 && |q.streams| == |items| > 0
    requires forall k :: 0 <= k < |items| ==> q.streams[k] == SetUp(items[k])
    requires q.finished <==> LimitedToNone(items[0])
    ensures Inv(q) <==> !LimitedToNone(items[0]) || forall k :: 0 <= k < |items| ==> LimitedToNone(items[k])
  {
    hide Instant;
    forall k | 0 <= k < |items|
      ensures StreamOk(q.streams[k]) && !HasTs(q.streams[k]) && (q.streams[k].finished <==> LimitedToNone(items[k]))
    {
    }
    assert HeadOk(q);
    assert AllFinished(q.streams) <==> forall k :: 0 <= k < |items| ==> LimitedToNone(items[k]);
  }

  /** The n-th turn of the loop passes only states in order. */
  ghost predicate TurnInOrder(items: seq<Added>, bufSize: int, n: nat)
    requires n < |items|
  {
    && Inv(AddStream(Setup(items[..n], bufSize), items[n].limiting))
    && Inv(Setup(items[..n + 1], bufSize))
  }

  /** Every state on the way is in order as well exactly if the first stream is not limited to no
      frames or no stream follows it. */
  lemma SetupInOrderIff(items: seq<Added>, bufSize: int)
    requires items != []
    ensures (forall n :: 0 <= n < |items| ==> TurnInOrder(items, bufSize, n)) <==> !LimitedToNone(items[0]) || |items| == 1
  {
    hide Inv, Setup;
    forall n | 0 <= n < |items|
      ensures TurnInOrder(items, bufSize, n) <==> !LimitedToNone(items[0]) || n == 0
    {
      TurnIff(items, bufSize, n);
    }
    assert |items| > 1 ==> !(LimitedToNone(items[0]) && TurnInOrder(items, bufSize, 1));
  }

  lemma TurnIff(items: seq<Added>, bufSize: int, n: nat)
    requires n < |items|
    ensures TurnInOrder(items, bufSize, n) <==> !LimitedToNone(items[0]) || n == 0
  {
    hide Instant, Setup, Inv;
    SetupInvIff(items[..n + 1], bufSize);
    var plain := items[..n] + [Added(items[n].limiting, None)];
    assert plain[..n] == items[..n];
    assert Setup(plain, bufSize) == AddStream(Setup(items[..n], bufSize), items[n].limiting) by { SetupPlain(plain, bufSize); }
    SetupInvIff(plain, bufSize);
    assert !LimitedToNone(plain[n]);
  }

  lemma SetupPlain(items: seq<Added>, bufSize: int)
    requires items != [] && items[|items| - 1].limit.None?
    ensures Setup(items, bufSize) == AddStream(Setup(items[..|items| - 1], bufSize), items[|items| - 1].limiting)
  {
  }

  /** Where the set-up does not end in order, every stream that was not limited to no frames is at
      EOF before its first frame. */
  lemma SetupAtEof(items: seq<Added>, bufSize: int, k: nat)
    requires k < |items| && LimitedToNone(items[0]) && !LimitedToNone(items[k])
    ensures var q := Setup(items, bufSize);
            && AllCountable(q) && !q.streams[k].finished && ReceiveFor(q, k) == (q, Eof)
  {
    SetupState(items, bufSize);
  }

  /** The smallest input: a frame limit of zero on the first of two streams. */
  lemma LimitBeforeAddEndsQueue(bufSize: int)
    ensures var q := Setup([Added(true, Some(0)), Added(true, None)], bufSize);
            && AllCountable(q) && !Inv(q) && !q.streams[1].finished && ReceiveFor(q, 1) == (q, Eof)
  {
    var items := [Added(true, Some(0)), Added(true, None)];
    assert LimitedToNone(items[0]) && !LimitedToNone(items[1]);
    hide Setup, Inv;
    SetupInvIff(items, bufSize);
    SetupAtEof(items, bufSize, 1);
  }

  /** After the set-up, over every run, the cached head and the finish flags are right. */
  lemma Reachable(items: seq<Added>, bufSize: int, ops: seq<Op>)
    requires items != [] && !LimitedToNone(items[0])
    requires Basic(Setup(items, bufSize)) ==> LegalRun(Setup(items, bufSize), ops) && SafeRun(Setup(items, bufSize), ops)
    ensures Basic(Setup(items, bufSize))
    ensures var r := Run(Setup(items, bufSize), ops).0; HeadOk(r) && FinishOk(r)
  {
    SetupInvIff(items, bufSize);
    RunInv(Setup(items, bufSize), ops);
  }
}
