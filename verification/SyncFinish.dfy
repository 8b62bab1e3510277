/** Which streams of the sync queue finish, and which stay open (fftools/sync_queue.c:171-216,
253-275, 343-407, 649-659). */
module SyncFinish {
  import opened Time
  import opened SyncModel
  import opened SyncHeads
  import opened SyncSamples
  import opened SyncRuns
  import opened SyncBeats

  /** An operation ends stream k itself: by its end of file, or at its frame limit. `r` is the queue
      after the operation. */
  predicate EndsOwn(op: Op, r: Queue, k: nat)
    requires k < |r.streams|
  {
    || op == Finish(k)
    || ((op.Send? || op.Limit?) && op.i == k && r.streams[k].framesSent >= r.streams[k].framesMax)
  }

  /** The head of stream k is at or past the finished head. */
  ghost predicate PastMark(q: Queue, k: int)
    requires 0 <= k < |q.streams|
  {
    && 0 <= q.headFinished < |q.streams|
    && HasTs(q.streams[k]) && HeadTime(q.streams[q.headFinished]) <= HeadTime(q.streams[k])
  }

  /** What finish_stream does, whatever state it is called in. */
  lemma FinishCauses(q: Queue, i: int, k: int)
    requires InBounds(q) && 0 <= i < |q.streams| && 0 <= k < |q.streams|
    ensures var r := FinishStream(q, i);
            && (r.streams[k].finished ==> q.streams[k].finished || k == i || PastMark(r, k))
            && (PastMark(q, k) ==> PastMark(r, k))
            && (r.headFinished == q.headFinished || r.headFinished == i)
            && r.streams[k] == q.streams[k].(finished := r.streams[k].finished)
  {
    hide Instant;
  }

  lemma FinishPast(q: Queue, i: int)
    requires InBounds(q) && 0 <= i < |q.streams| && PastMark(q, i)
    ensures FinishStream(q, i).headFinished == q.headFinished && PastMark(FinishStream(q, i), i)
  {
    hide Instant;
  }

  /** A head that reaches the finished head finishes its stream for that reason. */
  lemma UpdateCauses(q: Queue, i: int, ts: int, k: int)
    requires InBounds(q) && 0 <= i < |q.streams| && 0 <= k < |q.streams|
    ensures var r := UpdateTs(q, i, ts);
            && (r.streams[k].finished ==> q.streams[k].finished || PastMark(r, k))
            && r.headFinished == q.headFinished
            && r.streams[k] == q.streams[k].(finished := r.streams[k].finished, headTs := r.streams[k].headTs)
  {
    if ts != NOPTS && !(HasTs(q.streams[i]) && q.streams[i].headTs >= ts) {
      var q1 := SetHead(q, i, ts);
      UpdateTsSettles(q, i, ts);
      SettleCauses(q1, i, k);
    }
    hide Instant, Settle, HeadUpdate;
  }

  lemma SameMark(q: Queue, r: Queue, k: int)
    requires |r.streams| == |q.streams| && r.headFinished == q.headFinished && 0 <= k < |q.streams|
    requires forall j :: 0 <= j < |q.streams| ==> r.streams[j].headTs == q.streams[j].headTs && r.streams[j].tb == q.streams[j].tb
    ensures PastMark(r, k) <==> PastMark(q, k)
  {
    hide Instant;
  }

  lemma SettleCauses(q: Queue, i: int, k: int)
    requires InBounds(q) && 0 <= i < |q.streams| && 0 <= k < |q.streams| && HasTs(q.streams[i])
    ensures var r := Settle(q, i);
            && (r.streams[k].finished ==> q.streams[k].finished || PastMark(r, k))
            && r.headFinished == q.headFinished
            && r.streams[k] == q.streams[k].(finished := r.streams[k].finished)
  {
    assert PastMark(q, i) <==> q.headFinished >= 0 && HeadTime(q.streams[q.headFinished]) <= HeadTime(q.streams[i]);
    var q1 := if PastMark(q, i) then FinishStream(q, i) else q;
    FinishCauses(q, i, k);
    if PastMark(q, i) {
      FinishPast(q, i);
    }
    SameMark(q1, Settle(q, i), k);
    hide Instant, HeadTime, FinishStream, HeadUpdate, PastMark, InBounds;
  }

  lemma LimitCauses(q: Queue, q': Queue, i: int, k: int)
    requires InBounds(q) && 0 <= i < |q.streams| && 0 <= k < |q.streams|
    requires q' == if q.streams[i].framesSent >= q.streams[i].framesMax then FinishStream(q, i) else q
    ensures q'.streams[k].finished ==>
              || q.streams[k].finished || PastMark(q', k)
              || (k == i && q'.streams[k].framesSent >= q'.streams[k].framesMax)
    ensures PastMark(q, k) ==> PastMark(q', k)
    ensures q'.headFinished == q.headFinished || (q'.headFinished == i && q'.streams[i].framesSent >= q'.streams[i].framesMax)
    ensures q'.streams[k] == q.streams[k].(finished := q'.streams[k].finished)
  {
    FinishCauses(q, i, k);
    FinishCauses(q, i, i);
    hide FinishStream, PastMark;
  }

  lemma SendCauses(q: Queue, i: nat, f: Frame, k: nat)
    requires InBounds(q) && i < |q.streams| && k < |q.streams|
    ensures var r := SendFrame(q, i, f);
            && (r.streams[k].finished ==> q.streams[k].finished || EndsOwn(Send(i, f), r, k) || PastMark(r, k))
            && (r.headFinished == q.headFinished || (r.headFinished == i && EndsOwn(Send(i, f), r, i)))
  {
    hide Instant, HeadTime, UpdateTs, FinishStream, Enqueue, Normalise;
    if !q.streams[i].finished {
      EnqueueFlag(q.streams[i], f);
      var q1 := SetStream(q, i, Enqueue(q.streams[i], f));
      var ts := FrameEnd(Normalise(f), 0);
      var q2 := UpdateTs(q1, i, ts);
      UpdateCauses(q1, i, ts, k);
      var q3 := SetStream(q2, i, Count(q2.streams[i], |f.samples|));
      SameMark(q2, q3, k);
      LimitCauses(q3, SendFrame(q, i, f), i, k);
    }
  }

  lemma EnqueueFlag(st: Stream, f: Frame)
    ensures Enqueue(st, f).finished == st.finished && Enqueue(st, f).limiting == st.limiting
  {
  }

  /** Fake timestamps finish a stream only where they reach the finished head. */
  lemma HeartbeatCauses(q: Queue, idx: int, k: nat)
    requires Sound(q) && idx < |q.streams| && k < |q.streams|
    ensures var r := Heartbeat(q, idx).0;
            && (r.streams[k].finished ==> q.streams[k].finished || PastMark(r, k))
            && r.headFinished == q.headFinished
  {
    var s := Checked(q, idx);
    if Heartbeat(q, idx).1 {
      BeatIs(q, s, TailTs(q.streams[s].fifo) + 1, 0);
    }
    hide Instant, Rescale, HeadOk;
  }

  lemma ReceiveCauses(q: Queue, idx: int, k: nat)
    requires Sound(q) && StreamsOk(q) && AllCountable(q) && idx < |q.streams| && k < |q.streams|
    ensures var r := Receive(q, idx).0;
            && (r.streams[k].finished ==> q.streams[k].finished || PastMark(r, k))
            && r.headFinished == q.headFinished
  {
    hide Instant, HeadOk, FinishOk, StreamsOk, InBounds, Heartbeat, ReceiveInternal, AllCountable, PastMark;
    var q1 := Heartbeat(q, idx).0;
    HeartbeatCauses(q, idx, k);
    OnlyHeadsKeepsBuffers(q, q1);
    CountableFromOk(q1);
    InternalMark(q, idx, k);
    InternalMark(q1, idx, k);
  }

  lemma InternalMark(q: Queue, idx: int, k: nat)
    requires InBounds(q) && AllCountable(q) && idx < |q.streams| && k < |q.streams|
    ensures var r := ReceiveInternal(q, idx).0;
            r.streams[k].finished == q.streams[k].finished && r.headFinished == q.headFinished && (PastMark(r, k) <==> PastMark(q, k))
  {
    hide Instant, Releasable, ReceiveFrom;
    SameMark(q, ReceiveInternal(q, idx).0, k);
  }

  /** One operation finishes no stream without a cause: its own end or limit, or a finished head at
      or before its own. */
  lemma StepCauses(q: Queue, op: Op, k: nat)
    requires Inv(q) && Legal(q, op) && k < |q.streams|
    ensures var r := Step(q, op).0;
            && (r.streams[k].finished ==> q.streams[k].finished || EndsOwn(op, r, k) || PastMark(r, k))
            && (r.headFinished == q.headFinished
                || (0 <= r.headFinished < |r.streams| && EndsOwn(op, r, r.headFinished)))
  {
    hide Instant, PastMark, Receive, SendFrame, FinishStream, StreamsOk, HeadOk, FinishOk;
    match op
    case Send(i, f) => SendCauses(q, i, f, k);
    case Finish(i) => FinishCauses(q, i, k);
    case Recv(idx) =>
      CountableFromOk(q);
      ReceiveCauses(q, idx, k);
    case Limit(i, frames) =>
      LimitCauses(SetStream(q, i, q.streams[i].(framesMax := frames)), LimitFrames(q, i, frames), i, k);
    case FrameSize(i, size) =>
  }

  /** So with the closure in place: a stream has finished after an operation if and only if it had, or
      the operation ends it, or its head is at or past the finished head. */
  lemma StepFinishedIff(q: Queue, op: Op, k: nat)
    requires Inv(q) && Legal(q, op) && Safe(q, op) && k < |q.streams|
    ensures var r := Step(q, op).0;
            r.streams[k].finished <==> q.streams[k].finished || EndsOwn(op, r, k) || PastMark(r, k)
  {
    StepInv(q, op);
    StepCauses(q, op, k);
    if EndsOwn(op, Step(q, op).0, k) {
      EndsFinish(q, op, k);
    }
    hide Step, Safe, EndsOwn, HeadOk, StreamsOk, InBounds, HeadTime, Legal;
    var r := Step(q, op).0;
    assert Later(q.streams[k], r.streams[k]);
  }

  lemma EndsFinish(q: Queue, op: Op, k: nat)
    requires Inv(q) && Legal(q, op) && k < |q.streams| && EndsOwn(op, Step(q, op).0, k)
    ensures Step(q, op).0.streams[k].finished
  {
    hide Instant, HeadTime, UpdateTs, Enqueue, Count, HeadOk, FinishOk, StreamsOk;
    if op == Finish(k) {
      FinishKeepsFinished(q, k);
    } else {
    }
  }

  lemma FinishKeepsFinished(q: Queue, k: int)
    requires InBounds(q) && 0 <= k < |q.streams|
    ensures FinishStream(q, k).streams[k].finished
  {
    hide Instant;
  }

  // ---- over runs ----

  /** Some operation of the run ends stream k itself. */
  ghost predicate EndedBy(q: Queue, ops: seq<Op>, k: nat)
    requires Basic(q) && LegalRun(q, ops) && k < |q.streams|
    decreases |ops|
  {
    && ops != []
    && (StepBasic(q, ops[0]);
        var q1 := Step(q, ops[0]).0;
        EndsOwn(ops[0], q1, k) || EndedBy(q1, ops[1..], k))
  }

  /** It had finished before, or the run ends it. */
  ghost predicate Ended(q: Queue, ops: seq<Op>, k: nat)
    requires Basic(q) && LegalRun(q, ops) && k < |q.streams|
  {
    q.streams[k].finished || EndedBy(q, ops, k)
  }

  /** A limiting stream that has ended lies at or before stream k in the end. */
  ghost predicate PastEnded(q: Queue, ops: seq<Op>, k: nat)
    requires Basic(q) && LegalRun(q, ops) && k < |q.streams|
  {
    var r := Run(q, ops).0;
    && HasTs(r.streams[k])
    && exists j :: 0 <= j < |r.streams| && AtOrBefore(r, j, k) && Ended(q, ops, j)
  }

  ghost predicate AtOrBefore(r: Queue, j: int, k: int)
    requires 0 <= j < |r.streams| && 0 <= k < |r.streams|
  {
    r.streams[j].limiting && HasTs(r.streams[j]) && HeadTime(r.streams[j]) <= HeadTime(r.streams[k])
  }

  lemma EndedUnfold(q: Queue, ops: seq<Op>, k: nat)
    requires Basic(q) && LegalRun(q, ops) && ops != [] && k < |q.streams|
    ensures Basic(Step(q, ops[0]).0)
    ensures var q1 := Step(q, ops[0]).0;
            && LegalRun(q1, ops[1..]) && Run(q, ops).0 == Run(q1, ops[1..]).0
            && (EndedBy(q, ops, k) <==> EndsOwn(ops[0], q1, k) || EndedBy(q1, ops[1..], k))
  {
    StepBasic(q, ops[0]);
    hide Basic, Step, EndsOwn, Legal;
  }

  lemma {:induction false} EndedFinishes(q: Queue, ops: seq<Op>, k: nat)
    requires Inv(q) && LegalRun(q, ops) && SafeRun(q, ops) && k < |q.streams| && Ended(q, ops, k)
    ensures Run(q, ops).0.streams[k].finished
    decreases |ops|
  {
    if ops != [] {
      EndedUnfold(q, ops, k);
      var q1 := Step(q, ops[0]).0;
      StepInv(q, ops[0]);
      assert Later(q.streams[k], q1.streams[k]);
      if EndsOwn(ops[0], q1, k) {
        EndsFinish(q, ops[0], k);
      }
      hide HeadOk, FinishOk, InBounds, StreamsOk, HeadTime, Step, EndsOwn, EndedBy, Safe, Legal, Run, LegalRun;
      EndedFinishes(q1, ops[1..], k);
    }
  }

  /** What was past the finished head after the first step is past an ended stream in the end. */
  lemma MarkLasts(q: Queue, ops: seq<Op>, q1: Queue, k: nat, j: nat)
    requires Inv(q) && LegalRun(q, ops) && ops != [] && q1 == Step(q, ops[0]).0 && Inv(q1)
    requires k < |q.streams| && j < |q.streams| && q1.streams[j].finished && PastMark(q1, j)
    requires Grows(q1, Run(q, ops).0)
    requires var r := Run(q, ops).0; j == k || (HasTs(r.streams[k]) && AtOrBefore(r, j, k))
    ensures PastEnded(q, ops, k)
  {
    var h, r := q1.headFinished, Run(q, ops).0;
    StepCauses(q, ops[0], h);
    EndedUnfold(q, ops, h);
    assert Later(q1.streams[h], r.streams[h]) && Later(q1.streams[j], r.streams[j]);
    assert Ended(q, ops, h) by {
      assert Stopped(q1.streams[h]);
      if q1.headFinished == q.headFinished {
        assert Stopped(q.streams[h]);
      }
    }
    hide Instant, Run, LegalRun, Ended, EndsOwn, Step, StreamsOk, HeadOk;
    assert AtOrBefore(r, h, k);
  }

  /** Over every run, a stream has finished if and only if it has ended itself, or its head lies at
      or past that of a limiting stream that has: its own end of file, its own limit, or that stream's
      are the only causes. */
  lemma FinishedIff(q: Queue, ops: seq<Op>, k: nat)
    requires Inv(q) && LegalRun(q, ops) && SafeRun(q, ops) && k < |q.streams|
    ensures Run(q, ops).0.streams[k].finished <==> Ended(q, ops, k) || PastEnded(q, ops, k)
    decreases |ops|
  {
    if Ended(q, ops, k) {
      EndedFinishes(q, ops, k);
    } else if PastEnded(q, ops, k) {
      PastFinishes(q, ops, k);
    } else if Run(q, ops).0.streams[k].finished {
      FinishedCause(q, ops, k);
    }
  }

  lemma PastFinishes(q: Queue, ops: seq<Op>, k: nat)
    requires Inv(q) && LegalRun(q, ops) && SafeRun(q, ops) && k < |q.streams| && PastEnded(q, ops, k)
    ensures Run(q, ops).0.streams[k].finished
  {
    var r := Run(q, ops).0;
    RunInv(q, ops);
    var j :| 0 <= j < |r.streams| && AtOrBefore(r, j, k) && Ended(q, ops, j);
    EndedFinishes(q, ops, j);
    hide Instant, Run, LegalRun, SafeRun, Ended, PastEnded, StreamsOk, HeadOk;
    assert Stopped(r.streams[j]);
  }

  lemma {:induction false} FinishedCause(q: Queue, ops: seq<Op>, k: nat)
    requires Inv(q) && LegalRun(q, ops) && SafeRun(q, ops) && k < |q.streams|
    requires Run(q, ops).0.streams[k].finished
    ensures Ended(q, ops, k) || PastEnded(q, ops, k)
    decreases |ops|
  {
    if ops != [] {
      var q1, r := Step(q, ops[0]).0, Run(q, ops).0;
      EndedUnfold(q, ops, k);
      StepInv(q, ops[0]);
      assert SafeRun(q1, ops[1..]);
      RunInv(q1, ops[1..]);
      FinishedCause(q1, ops[1..], k);
      StepCauses(q, ops[0], k);
      hide HeadOk, FinishOk, InBounds, StreamsOk, HeadTime, Step, EndsOwn, EndedBy, Safe, Legal, Run, LegalRun, SafeRun, PastMark;
      if Ended(q1, ops[1..], k) {
        if q1.streams[k].finished && PastMark(q1, k) {
          MarkLasts(q, ops, q1, k, k);
        }
      } else {
        var j :| 0 <= j < |r.streams| && AtOrBefore(r, j, k) && Ended(q1, ops[1..], j);
        EndedUnfold(q, ops, j);
        StepCauses(q, ops[0], j);
        if q1.streams[j].finished && PastMark(q1, j) {
          MarkLasts(q, ops, q1, k, j);
        }
      }
    }
  }
}
