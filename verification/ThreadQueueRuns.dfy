/** Any number of senders and receivers over one thread queue: waiting, wake-ups (also
spurious ones) and what is delivered, over every interleaving of the mutex-held sections. */
module ThreadQueueRuns {
  import opened ThreadQueueModel

  /** Where a thread is: outside the queue, or waiting on its condition variable. */
  datatype Thread<T> =
    | Idle
    | SendWait(stream: nat, item: T, signalled: bool)
    | RecvWait(signalled: bool)

  datatype Event<T> =
    | Accepted(i: nat, item: T)
    | Delivered(i: nat, item: T)
    | Ended(i: nat)
    | Closed(i: nat)
    | Other

  datatype Config<T> = Config(q: TQ<T>, threads: seq<Thread<T>>, log: seq<Event<T>>)

  datatype Action<T> =
    | StartSend(t: nat, i: nat, item: T)
    | StartRecv(t: nat)
    | Wake(t: nat)
    | FinishSend(i: nat)
    | FinishRecv(i: nat)

  function Signal<T>(th: Thread<T>): Thread<T> {
    match th
    case Idle => th
    case SendWait(i, x, _) => SendWait(i, x, true)
    case RecvWait(_) => RecvWait(true)
  }

  function Broadcast<T>(threads: seq<Thread<T>>): (r: seq<Thread<T>>)
    ensures |r| == |threads|
  {
    seq(|threads|, t requires 0 <= t < |threads| => Signal(threads[t]))
  }

  predicate Wf<T>(c: Config<T>) {
    && Valid(c.q)
    && forall t :: 0 <= t < |c.threads| && c.threads[t].SendWait? ==> c.threads[t].stream < |c.q.finished|
  }

  predicate Enabled<T>(c: Config<T>, a: Action<T>) {
    match a
    case StartSend(t, i, x) => t < |c.threads| && c.threads[t].Idle? && i < |c.q.finished|
    case StartRecv(t) => t < |c.threads| && c.threads[t].Idle?
    case Wake(t) => t < |c.threads| && !c.threads[t].Idle?
    case FinishSend(i) => i < |c.q.finished|
    case FinishRecv(i) => i < |c.q.finished|
  }

  function SendSection<T>(c: Config<T>, t: nat, i: nat, x: T, entering: bool): Config<T>
    requires Wf(c) && t < |c.threads| && i < |c.q.finished|
  {
    var (q, r) := if entering then SendEnter(c.q, i, x) else SendTurn(c.q, i, x);
    match r
    case Blocked => Config(q, c.threads[t := SendWait(i, x, false)], c.log)
    case Sent => Config(q, Broadcast(c.threads[t := Idle]), c.log + [Accepted(i, x)])
    case Invalid => Config(q, c.threads[t := Idle], c.log + [Other])
    case RecvClosed => Config(q, c.threads[t := Idle], c.log + [Other])
  }

  function RecvSection<T>(c: Config<T>, t: nat): Config<T>
    requires Wf(c) && t < |c.threads|
  {
    var (q, r) := ReceiveLocked(c.q);
    var threads := if |q.fifo| != |c.q.fifo| then Broadcast(c.threads) else c.threads;
    match r
    case Item(i, x) => Config(q, threads[t := Idle], c.log + [Delivered(i, x)])
    case EofOf(i) => Config(q, threads[t := Idle], c.log + [Ended(i)])
    case AllDone => Config(q, threads[t := Idle], c.log + [Other])
    case WouldBlock => Config(q, threads[t := RecvWait(false)], c.log)
  }

  function Apply<T>(c: Config<T>, a: Action<T>): Config<T>
    requires Wf(c) && Enabled(c, a)
  {
    match a
    case StartSend(t, i, x) => SendSection(c, t, i, x, true)
    case StartRecv(t) => RecvSection(c, t)
    case Wake(t) =>
      (match c.threads[t]
       case SendWait(i, x, _) => SendSection(c, t, i, x, false)
       case RecvWait(_) => RecvSection(c, t))
    case FinishSend(i) => Config(SendFinish(c.q, i), Broadcast(c.threads), c.log + [Other])
    case FinishRecv(i) => Config(ReceiveFinish(c.q, i), Broadcast(c.threads), c.log + [Closed(i)])
  }

  // ---- no lost wake-ups ----

  /** A thread that waits without a pending signal really cannot go on. */
  ghost predicate ReallyBlocked<T>(q: TQ<T>, th: Thread<T>)
    requires Valid(q)
  {
    match th
    case Idle => true
    case SendWait(i, _, signalled) =>
      i < |q.finished| && (!signalled ==> !q.finished[i].recv && |q.fifo| == q.capacity)
    case RecvWait(signalled) => !signalled ==> ReceiveLocked(q).0 == q && ReceiveLocked(q).1.WouldBlock?
  }

  ghost predicate NoLostWakeup<T>(c: Config<T>) {
    && Valid(c.q) && c.q.capacity >= 1
    && forall t :: 0 <= t < |c.threads| ==> ReallyBlocked(c.q, c.threads[t])
  }

  lemma IdleReceive<T>(q: TQ<T>)
    requires Valid(q)
    ensures ReceiveLocked(q).0 == q && ReceiveLocked(q).1.WouldBlock? <==>
              && q.fifo == []
              && (forall j :: 0 <= j < |q.finished| ==> !(q.finished[j].send && !q.finished[j].recv))
              && !AllEnded(q.finished)
  {
  }

  lemma BroadcastBlocked<T>(q: TQ<T>, threads: seq<Thread<T>>)
    requires Valid(q)
    requires forall t :: 0 <= t < |threads| && threads[t].SendWait? ==> threads[t].stream < |q.finished|
    ensures forall t :: 0 <= t < |threads| ==> ReallyBlocked(q, Broadcast(threads)[t])
  {
  }

  lemma SendKeeps<T>(c: Config<T>, t: nat, i: nat, x: T, entering: bool)
    requires NoLostWakeup(c) && Wf(c) && t < |c.threads| && i < |c.q.finished|
    ensures NoLostWakeup(SendSection(c, t, i, x, entering))
  {
    hide ReceiveLocked;
    var c' := SendSection(c, t, i, x, entering);
    var r := (if entering then SendEnter(c.q, i, x) else SendTurn(c.q, i, x)).1;
    if r.Sent? {
      hide ReallyBlocked;
      BroadcastBlocked(c'.q, c.threads[t := Idle]);
    } else if r.RecvClosed? {
      // marking a stream the receiver has finished as send-finished changes nothing for a waiter
      IdleReceive(c.q);
      IdleReceive(c'.q);
      assert AllEnded(c'.q.finished) ==> AllEnded(c.q.finished) by {
        assert forall j :: 0 <= j < |c.q.finished| && j != i ==> c'.q.finished[j] == c.q.finished[j];
      }
      assert forall u :: 0 <= u < |c.threads| && u != t ==> ReallyBlocked(c.q, c.threads[u]);
    }
  }

  function ToWake<T>(c: Config<T>): seq<Thread<T>>
    requires Valid(c.q)
  {
    if |ReceiveLocked(c.q).0.fifo| != |c.q.fifo| then Broadcast(c.threads) else c.threads
  }

  lemma RecvOthers<T>(c: Config<T>)
    requires NoLostWakeup(c) && Wf(c)
    ensures forall u :: 0 <= u < |c.threads| ==> ReallyBlocked(ReceiveLocked(c.q).0, ToWake(c)[u])
  {
    hide ReceiveLocked, ReallyBlocked;
    var q := ReceiveLocked(c.q).0;
    if |q.fifo| != |c.q.fifo| {
      BroadcastBlocked(q, c.threads);
    } else {
      SameFifo(c.q);
      forall u | 0 <= u < |c.threads|
        ensures ReallyBlocked(q, c.threads[u])
      {
        StillBlocked(c.q, c.threads[u]);
      }
    }
  }

  lemma RecvKeeps<T>(c: Config<T>, t: nat)
    requires NoLostWakeup(c) && Wf(c) && t < |c.threads|
    ensures NoLostWakeup(RecvSection(c, t))
  {
    hide ReceiveLocked, Broadcast;
    RecvOthers(c);
    var c' := RecvSection(c, t);
    if ReceiveLocked(c.q).1.WouldBlock? {
      WaitsOnEmpty(c.q);
      IdleReceive(c'.q);
    }
    forall u | 0 <= u < |c'.threads|
      ensures ReallyBlocked(c'.q, c'.threads[u])
    {
      assert u != t ==> c'.threads[u] == ToWake(c)[u];
    }
  }

  /** A receive that leaves an empty FIFO empty leaves the other waiters blocked. */
  lemma StillBlocked<T>(q: TQ<T>, th: Thread<T>)
    requires Valid(q) && q.capacity >= 1 && q.fifo == [] && ReallyBlocked(q, th)
    ensures ReallyBlocked(ReceiveLocked(q).0, th)
  {
  }

  lemma WaitsOnEmpty<T>(q: TQ<T>)
    requires Valid(q) && ReceiveLocked(q).1.WouldBlock?
    ensures ReceiveLocked(q).0 == q.(fifo := [])
    ensures (forall j :: 0 <= j < |q.finished| ==> !(q.finished[j].send && !q.finished[j].recv)) && !AllEnded(q.finished)
  {
  }

  /** A receive that leaves the FIFO alone found it empty: setting FINISHED_RECV there without
      a broadcast loses no sender. */
  lemma SameFifo<T>(q: TQ<T>)
    requires Valid(q) && |ReceiveLocked(q).0.fifo| == |q.fifo|
    ensures q.fifo == []
  {
  }

  /** In every step an unsignalled waiting sender still faces a full FIFO of a stream the
      receiver has not finished, and an unsignalled waiting receiver would still get EAGAIN. */
  lemma ApplyKeeps<T>(c: Config<T>, a: Action<T>)
    requires NoLostWakeup(c) && Wf(c) && Enabled(c, a)
    ensures NoLostWakeup(Apply(c, a)) && Wf(Apply(c, a))
    ensures |Apply(c, a).q.finished| == |c.q.finished|
  {
    match a
    case StartSend(t, i, x) => SendKeeps(c, t, i, x, true);
    case StartRecv(t) => RecvKeeps(c, t);
    case Wake(t) =>
      if c.threads[t].SendWait? {
        SendKeeps(c, t, c.threads[t].stream, c.threads[t].item, false);
      } else {
        RecvKeeps(c, t);
      }
    case FinishSend(i) => BroadcastBlocked(SendFinish(c.q, i), c.threads);
    case FinishRecv(i) => BroadcastBlocked(ReceiveFinish(c.q, i), c.threads);
    assert forall t :: 0 <= t < |Apply(c, a).threads| ==> ReallyBlocked(Apply(c, a).q, Apply(c, a).threads[t]);
  }

  ghost predicate LegalRun<T>(c: Config<T>, actions: seq<Action<T>>)
    requires NoLostWakeup(c) && Wf(c)
    decreases |actions|
  {
    actions != [] ==>
      Enabled(c, actions[0]) && (ApplyKeeps(c, actions[0]); LegalRun(Apply(c, actions[0]), actions[1..]))
  }

  ghost function Run<T>(c: Config<T>, actions: seq<Action<T>>): (r: Config<T>)
    requires NoLostWakeup(c) && Wf(c) && LegalRun(c, actions)
    decreases |actions|
  {
    if actions == [] then c
    else
      ApplyKeeps(c, actions[0]);
      Run(Apply(c, actions[0]), actions[1..])
  }

  function Start<T>(nbStreams: nat, capacity: nat, nbThreads: nat): Config<T> {
    Config(New(nbStreams, capacity), seq(nbThreads, _ => Idle), [])
  }

  lemma StartOk<T>(nbStreams: nat, capacity: nat, nbThreads: nat)
    requires capacity >= 1
    ensures var c := Start<T>(nbStreams, capacity, nbThreads); NoLostWakeup(c) && Wf(c) && Delivery(c)
  {
  }

  /** Over every interleaving no wake-up is lost, and never do a sender and a receiver wait
      without a signal at the same time. */
  lemma {:induction false} NoWakeupLost<T>(c: Config<T>, actions: seq<Action<T>>)
    requires NoLostWakeup(c) && Wf(c) && LegalRun(c, actions)
    ensures NoLostWakeup(Run(c, actions))
    ensures var ths := Run(c, actions).threads;
            !exists t, u :: 0 <= t < |ths| && 0 <= u < |ths|
                            && ths[t].SendWait? && !ths[t].signalled && ths[u].RecvWait? && !ths[u].signalled
    decreases |actions|
  {
    if actions == [] {
      NotBothBlocked(c);
    } else {
      ApplyKeeps(c, actions[0]);
      NoWakeupLost(Apply(c, actions[0]), actions[1..]);
    }
  }

  lemma NotBothBlocked<T>(c: Config<T>)
    requires NoLostWakeup(c)
    ensures !exists t, u :: 0 <= t < |c.threads| && 0 <= u < |c.threads|
                            && c.threads[t].SendWait? && !c.threads[t].signalled
                            && c.threads[u].RecvWait? && !c.threads[u].signalled
  {
    forall t, u | 0 <= t < |c.threads| && 0 <= u < |c.threads| && c.threads[t].SendWait? && !c.threads[t].signalled
      ensures !(c.threads[u].RecvWait? && !c.threads[u].signalled)
    {
      assert ReallyBlocked(c.q, c.threads[t]) && ReallyBlocked(c.q, c.threads[u]);
      IdleReceive(c.q);
    }
  }

  // ---- delivery ----

  function AcceptedOf<T>(log: seq<Event<T>>, i: nat): seq<T> {
    if log == [] then []
    else AcceptedOf(log[..|log| - 1], i)
         + if log[|log| - 1].Accepted? && log[|log| - 1].i == i then [log[|log| - 1].item] else []
  }

  function DeliveredOf<T>(log: seq<Event<T>>, i: nat): seq<T> {
    if log == [] then []
    else DeliveredOf(log[..|log| - 1], i)
         + if log[|log| - 1].Delivered? && log[|log| - 1].i == i then [log[|log| - 1].item] else []
  }

  function PendingOf<T>(fifo: seq<Elem<T>>, i: nat): seq<T> {
    if fifo == [] then [] else (if fifo[0].stream == i then [fifo[0].item] else []) + PendingOf(fifo[1..], i)
  }

  ghost predicate HasEnded<T>(log: seq<Event<T>>, i: nat) {
    exists k :: 0 <= k < |log| && log[k] == Ended(i)
  }

  ghost predicate HasClosed<T>(log: seq<Event<T>>, i: nat) {
    exists k :: 0 <= k < |log| && log[k] == Closed(i)
  }

  /** Until the receiver is through with stream i, what was delivered and what is queued are
      what was accepted, in order; a stream it did not close itself was delivered in full. */
  ghost predicate StreamDelivery<T>(c: Config<T>, i: nat)
    requires i < |c.q.finished|
  {
    var acc, del := AcceptedOf(c.log, i), DeliveredOf(c.log, i);
    && (!c.q.finished[i].recv ==> del + PendingOf(c.q.fifo, i) == acc)
    && del <= acc
    && (c.q.finished[i].recv && !HasClosed(c.log, i) ==> del == acc)
    && (c.q.finished[i].recv <==> HasEnded(c.log, i) || HasClosed(c.log, i))
  }

  /** After its end was reported, or the receiver closed it, a stream delivers nothing and is
      not reported ended again. */
  ghost predicate Quiet<T>(log: seq<Event<T>>) {
    forall a, b :: 0 <= a < b < |log| && (log[a].Ended? || log[a].Closed?) ==>
      !((log[b].Delivered? || log[b].Ended?) && log[b].i == log[a].i)
  }

  ghost predicate Delivery<T>(c: Config<T>) {
    && Quiet(c.log)
    && forall i :: 0 <= i < |c.q.finished| ==> StreamDelivery(c, i)
  }

  lemma LogStep<T>(log: seq<Event<T>>, e: Event<T>, i: nat)
    ensures AcceptedOf(log + [e], i) == AcceptedOf(log, i) + if e.Accepted? && e.i == i then [e.item] else []
    ensures DeliveredOf(log + [e], i) == DeliveredOf(log, i) + if e.Delivered? && e.i == i then [e.item] else []
    ensures HasEnded(log + [e], i) <==> HasEnded(log, i) || e == Ended(i)
    ensures HasClosed(log + [e], i) <==> HasClosed(log, i) || e == Closed(i)
  {
    var log' := log + [e];
    assert log'[..|log'| - 1] == log;
    assert log'[|log|] == e;
    assert forall k :: 0 <= k < |log| ==> log'[k] == log[k];
  }

  lemma {:induction false} PendingAppend<T>(fifo: seq<Elem<T>>, e: Elem<T>, i: nat)
    ensures PendingOf(fifo + [e], i) == PendingOf(fifo, i) + if e.stream == i then [e.item] else []
  {
    if fifo == [] {
      assert fifo + [e] == [e];
    } else {
      PendingAppend(fifo[1..], e, i);
      assert (fifo + [e])[1..] == fifo[1..] + [e];
    }
  }

  /** Dropping the items of closed streams drops nothing of an open one. */
  lemma {:induction false} DropKeeps<T>(fifo: seq<Elem<T>>, finished: seq<Flags>, i: nat)
    requires forall k :: 0 <= k < |fifo| ==> fifo[k].stream < |finished|
    requires i < |finished| && !finished[i].recv
    ensures PendingOf(DropClosed(fifo, finished), i) == PendingOf(fifo, i)
  {
    if fifo != [] && finished[fifo[0].stream].recv {
      DropKeeps(fifo[1..], finished, i);
    }
  }

  lemma QuietStep<T>(c: Config<T>, e: Event<T>)
    requires Delivery(c)
    requires e.Delivered? || e.Ended? ==> e.i < |c.q.finished| && !c.q.finished[e.i].recv
    ensures Quiet(c.log + [e])
  {
    var log' := c.log + [e];
    forall a, b | 0 <= a < b < |log'| && (log'[a].Ended? || log'[a].Closed?)
      ensures !((log'[b].Delivered? || log'[b].Ended?) && log'[b].i == log'[a].i)
    {
      if b == |c.log| && (e.Delivered? || e.Ended?) {
        assert StreamDelivery(c, e.i);
        assert c.log[a] == log'[a];
      }
    }
  }

  lemma SendDelivery<T>(c: Config<T>, t: nat, i: nat, x: T, entering: bool)
    requires Delivery(c) && Wf(c) && t < |c.threads| && i < |c.q.finished|
    ensures Delivery(SendSection(c, t, i, x, entering))
  {
    hide HasEnded, HasClosed, AcceptedOf, DeliveredOf, PendingOf;
    var c' := SendSection(c, t, i, x, entering);
    if c'.log != c.log {
      var e := c'.log[|c.log|];
      assert c'.log == c.log + [e];
      QuietStep(c, e);
      hide Quiet;
      forall j | 0 <= j < |c.q.finished|
        ensures StreamDelivery(c', j)
      {
        assert StreamDelivery(c, j);
        LogStep(c.log, e, j);
        PendingAppend(c.q.fifo, Elem(i, x), j);
      }
    } else {
      forall j | 0 <= j < |c.q.finished|
        ensures StreamDelivery(c', j)
      {
        assert StreamDelivery(c, j);
      }
    }
  }

  /** What a receive does to one stream: hand out its first item, report its end when nothing
      of it is left, or leave it alone. */
  lemma ReceiveStream<T>(q: TQ<T>, j: nat)
    requires Valid(q) && j < |q.finished|
    ensures var (q', r) := ReceiveLocked(q);
            if r.Item? && r.stream == j then
              !q.finished[j].recv && !q'.finished[j].recv
              && [r.item] + PendingOf(q'.fifo, j) == PendingOf(q.fifo, j)
            else if r.EofOf? && r.stream == j then
              !q.finished[j].recv && q'.finished[j].recv && PendingOf(q.fifo, j) == []
            else
              && q'.finished[j].recv == q.finished[j].recv
              && (!q.finished[j].recv ==> PendingOf(q'.fifo, j) == PendingOf(q.fifo, j))
  {
    if !q.finished[j].recv {
      DropKeeps(q.fifo, q.finished, j);
    }
  }

  lemma RecvDelivery<T>(c: Config<T>, t: nat)
    requires Delivery(c) && Wf(c) && t < |c.threads|
    ensures Delivery(RecvSection(c, t))
  {
    hide ReceiveLocked, HasEnded, HasClosed, AcceptedOf, DeliveredOf, PendingOf;
    var c' := RecvSection(c, t);
    var (q', r) := ReceiveLocked(c.q);
    var e := match r case Item(i, x) => Delivered(i, x) case EofOf(i) => Ended(i) case _ => Other;
    if r.Item? || r.EofOf? {
      ReceivedOpen(c.q);
    }
    QuietStep(c, e);
    hide Quiet;
    forall j | 0 <= j < |c.q.finished|
      ensures StreamDelivery(c', j)
    {
      assert StreamDelivery(c, j);
      LogStep(c.log, e, j);
      ReceiveStream(c.q, j);
    }
  }

  lemma ReceivedOpen<T>(q: TQ<T>)
    requires Valid(q)
    ensures var r := ReceiveLocked(q).1;
            r.Item? || r.EofOf? ==> r.stream < |q.finished| && !q.finished[r.stream].recv
  {
  }

  lemma FinishDelivery<T>(c: Config<T>, i: nat, recv: bool)
    requires Delivery(c) && Wf(c) && i < |c.q.finished|
    ensures Delivery(Apply(c, if recv then FinishRecv(i) else FinishSend(i)))
  {
    hide HasEnded, HasClosed, AcceptedOf, DeliveredOf, PendingOf;
    var c' := Apply(c, if recv then FinishRecv(i) else FinishSend(i));
    var e: Event<T> := if recv then Closed(i) else Other;
    QuietStep(c, e);
    hide Quiet;
    forall j | 0 <= j < |c.q.finished|
      ensures StreamDelivery(c', j)
    {
      assert StreamDelivery(c, j);
      LogStep(c.log, e, j);
    }
  }

  lemma ApplyDelivery<T>(c: Config<T>, a: Action<T>)
    requires Delivery(c) && Wf(c) && Enabled(c, a)
    ensures Delivery(Apply(c, a))
  {
    match a
    case StartSend(t, i, x) => SendDelivery(c, t, i, x, true);
    case StartRecv(t) => RecvDelivery(c, t);
    case Wake(t) =>
      if c.threads[t].SendWait? {
        SendDelivery(c, t, c.threads[t].stream, c.threads[t].item, false);
      } else {
        RecvDelivery(c, t);
      }
    case FinishSend(i) => FinishDelivery(c, i, false);
    case FinishRecv(i) => FinishDelivery(c, i, true);
  }

  /** Over every interleaving each accepted item is delivered once and in order unless the
      receiver closed its stream, and the end of a stream is reported once and is final. */
  lemma {:induction false} DeliveredInOrder<T>(c: Config<T>, actions: seq<Action<T>>)
    requires NoLostWakeup(c) && Wf(c) && LegalRun(c, actions) && Delivery(c)
    ensures Delivery(Run(c, actions))
    decreases |actions|
  {
    if actions != [] {
      ApplyKeeps(c, actions[0]);
      ApplyDelivery(c, actions[0]);
      DeliveredInOrder(Apply(c, actions[0]), actions[1..]);
    }
  }

  /** Sending for a stream the receiver has closed: EOF once, EINVAL from then on, nothing queued. */
  lemma ClosedIsRefused<T>(q: TQ<T>, i: nat, x: T, y: T)
    requires Valid(q) && i < |q.finished| && !q.finished[i].send
    ensures var (q1, r1) := SendEnter(ReceiveFinish(q, i), i, x);
            var (q2, r2) := SendEnter(q1, i, y);
            r1.RecvClosed? && r2.Invalid? && q2 == q1 && q1.fifo == q.fifo
  {
  }

  // ---- draining ----

  function OpenStreams(finished: seq<Flags>): nat {
    if finished == [] then 0 else (if finished[0].recv then 0 else 1) + OpenStreams(finished[1..])
  }

  lemma {:induction false} CloseOne(finished: seq<Flags>, i: nat)
    requires i < |finished| && !finished[i].recv
    ensures OpenStreams(finished[i := finished[i].(recv := true)]) == OpenStreams(finished) - 1
  {
    var closed := finished[i := finished[i].(recv := true)];
    if i == 0 {
      assert closed[1..] == finished[1..];
    } else {
      CloseOne(finished[1..], i - 1);
      assert closed[1..] == finished[1..][i - 1 := finished[i].(recv := true)];
    }
  }

  function Measure<T>(q: TQ<T>): nat {
    |q.fifo| + OpenStreams(q.finished)
  }

  predicate SendersDone<T>(q: TQ<T>) {
    forall k :: 0 <= k < |q.finished| ==> q.finished[k].send
  }

  lemma ReceiveProgress<T>(q: TQ<T>)
    requires Valid(q) && SendersDone(q)
    ensures var (q', r) := ReceiveLocked(q);
            && SendersDone(q') && !r.WouldBlock?
            && (r.AllDone? || Measure(q') < Measure(q))
  {
    var i := FirstEnded(q.finished, 0);
    if i < |q.finished| {
      CloseOne(q.finished, i);
    }
  }

  function AfterReceives<T>(q: TQ<T>, n: nat): (r: TQ<T>)
    requires Valid(q)
    ensures Valid(r)
    decreases n
  {
    if n == 0 then q else AfterReceives(ReceiveLocked(q).0, n - 1)
  }

  /** Once all senders have finished, the consumer never blocks and is told that all streams
      are done after at most (queued items + open streams) receives. */
  lemma {:induction false} Drains<T>(q: TQ<T>) returns (n: nat)
    requires Valid(q) && SendersDone(q)
    ensures n <= Measure(q) && ReceiveLocked(AfterReceives(q, n)).1.AllDone?
    ensures forall k :: 0 <= k <= n ==> !ReceiveLocked(AfterReceives(q, k)).1.WouldBlock?
    decreases Measure(q)
  {
    hide Measure, ReceiveLocked, SendersDone, Valid;
    ReceiveProgress(q);
    var (q', r) := ReceiveLocked(q);
    if r.AllDone? {
      n := 0;
    } else {
      var m := Drains(q');
      n := m + 1;
      forall k | 0 <= k <= n
        ensures !ReceiveLocked(AfterReceives(q, k)).1.WouldBlock?
      {
        if k > 0 {
          assert AfterReceives(q, k) == AfterReceives(q', k - 1);
        }
      }
    }
  }

  // ---- draining while other threads go on ----

  /** Threads that wait to send: those that entered before their stream was finished may still put
      an item in. */
  function Senders<T>(threads: seq<Thread<T>>): nat {
    if threads == [] then 0 else (if threads[0].SendWait? then 1 else 0) + Senders(threads[1..])
  }

  function Load<T>(c: Config<T>): nat {
    Measure(c.q) + Senders(c.threads)
  }

  lemma {:induction false} SendersUpdate<T>(threads: seq<Thread<T>>, t: nat, th: Thread<T>)
    requires t < |threads|
    ensures Senders(threads[t := th])
         == Senders(threads) - (if threads[t].SendWait? then 1 else 0) + if th.SendWait? then 1 else 0
  {
    var updated := threads[t := th];
    if t == 0 {
      assert updated[1..] == threads[1..];
    } else {
      SendersUpdate(threads[1..], t - 1, th);
      assert updated[1..] == threads[1..][t - 1 := th];
    }
  }

  lemma {:induction false} SendersBroadcast<T>(threads: seq<Thread<T>>)
    ensures Senders(Broadcast(threads)) == Senders(threads)
  {
    if threads != [] {
      SendersBroadcast(threads[1..]);
      assert Broadcast(threads)[1..] == Broadcast(threads[1..]);
    }
  }

  lemma {:induction false} OpenFewer(a: seq<Flags>, b: seq<Flags>)
    requires |a| == |b| && forall k :: 0 <= k < |a| && a[k].recv ==> b[k].recv
    ensures OpenStreams(b) <= OpenStreams(a)
  {
    if a != [] {
      OpenFewer(a[1..], b[1..]);
    }
  }

  predicate IsReceive<T>(c: Config<T>, a: Action<T>)
    requires Enabled(c, a)
  {
    a.StartRecv? || (a.Wake? && c.threads[a.t].RecvWait?)
  }

  predicate AllTold<T>(c: Config<T>)
    requires Valid(c.q)
  {
    ReceiveLocked(c.q).1.AllDone?
  }

  lemma SendTurnLoad<T>(c: Config<T>, t: nat)
    requires Wf(c) && t < |c.threads| && c.threads[t].SendWait? && SendersDone(c.q)
    ensures var r := SendSection(c, t, c.threads[t].stream, c.threads[t].item, false);
            SendersDone(r.q) && Load(r) <= Load(c)
  {
    var i, x := c.threads[t].stream, c.threads[t].item;
    var r := SendSection(c, t, i, x, false);
    OpenFewer(c.q.finished, r.q.finished);
    SendersUpdate(c.threads, t, Idle);
    SendersUpdate(c.threads, t, SendWait(i, x, false));
    SendersBroadcast(c.threads[t := Idle]);
    hide OpenStreams, Senders, Broadcast;
  }

  lemma RecvLoad<T>(c: Config<T>, t: nat)
    requires Wf(c) && t < |c.threads| && !c.threads[t].SendWait? && SendersDone(c.q)
    ensures var r := RecvSection(c, t);
            && SendersDone(r.q) && r.threads[t].Idle?
            && Load(r) + (if AllTold(c) then 0 else 1) <= Load(c)
  {
    hide ReceiveLocked, OpenStreams, Senders, RecvSection, Broadcast, SendersDone;
    ReceiveProgress(c.q);
    if AllTold(c) {
      AllDoneKeeps(c.q);
    }
    RecvResult(c, t);
    SendersBroadcast(c.threads);
    SendersUpdate(c.threads, t, Idle);
    StillNoSender(c.threads, t);
    SendersUpdate(Broadcast(c.threads), t, Idle);
  }

  lemma RecvResult<T>(c: Config<T>, t: nat)
    requires Wf(c) && t < |c.threads| && !ReceiveLocked(c.q).1.WouldBlock?
    ensures var q := ReceiveLocked(c.q).0;
            && RecvSection(c, t).q == q
            && RecvSection(c, t).threads == (if |q.fifo| != |c.q.fifo| then Broadcast(c.threads) else c.threads)[t := Idle]
  {
    hide ReceiveLocked, Broadcast;
  }

  lemma StillNoSender<T>(threads: seq<Thread<T>>, t: nat)
    requires t < |threads|
    ensures Broadcast(threads)[t].SendWait? <==> threads[t].SendWait?
  {
  }

  lemma AllDoneKeeps<T>(q: TQ<T>)
    requires Valid(q) && ReceiveLocked(q).1.AllDone?
    ensures Measure(ReceiveLocked(q).0) <= Measure(q)
  {
  }

  /** Once all senders have finished, no action adds to the load, and every receive that is not
      told that all is done takes from it, and never waits. */
  lemma ApplyLoad<T>(c: Config<T>, a: Action<T>)
    requires Wf(c) && Enabled(c, a) && SendersDone(c.q)
    ensures var r := Apply(c, a);
            && SendersDone(r.q)
            && (IsReceive(c, a) ==> r.threads[a.t].Idle?)
            && Load(r) + (if IsReceive(c, a) && !AllTold(c) then 1 else 0) <= Load(c)
  {
    match a
    case StartSend(t, i, x) =>
      assert c.threads[t := Idle] == c.threads;
    case StartRecv(t) => RecvLoad(c, t);
    case Wake(t) =>
      if c.threads[t].RecvWait? {
        RecvLoad(c, t);
      } else {
        SendTurnLoad(c, t);
      }
    case FinishSend(i) =>
      OpenFewer(c.q.finished, SendFinish(c.q, i).finished);
      SendersBroadcast(c.threads);
    case FinishRecv(i) =>
      OpenFewer(c.q.finished, ReceiveFinish(c.q, i).finished);
      SendersBroadcast(c.threads);
  }

  /** How many receives of a run are not told that all is done. */
  ghost function Untold<T>(c: Config<T>, actions: seq<Action<T>>): nat
    requires NoLostWakeup(c) && Wf(c) && LegalRun(c, actions)
    decreases |actions|
  {
    if actions == [] then 0
    else
      ApplyKeeps(c, actions[0]);
      (if IsReceive(c, actions[0]) && !AllTold(c) then 1 else 0) + Untold(Apply(c, actions[0]), actions[1..])
  }

  /** Over every interleaving from there, whatever the other threads do, at most as many receives as
      there are items, open streams and waiting senders are not told that all is done: a consumer
      that keeps receiving is told. */
  lemma {:induction false} DrainsInterleaved<T>(c: Config<T>, actions: seq<Action<T>>)
    requires NoLostWakeup(c) && Wf(c) && LegalRun(c, actions) && SendersDone(c.q)
    ensures Untold(c, actions) + Load(Run(c, actions)) <= Load(c)
    decreases |actions|
  {
    hide NoLostWakeup, Wf, SendersDone, Load, Apply, Enabled, IsReceive, AllTold;
    if actions != [] {
      ApplyKeeps(c, actions[0]);
      ApplyLoad(c, actions[0]);
      DrainsInterleaved(Apply(c, actions[0]), actions[1..]);
    }
  }

  /** With all senders finished, being told so is for good. */
  lemma AllToldIsFinal<T>(c: Config<T>, a: Action<T>)
    requires Wf(c) && Enabled(c, a) && SendersDone(c.q) && AllTold(c)
    ensures Wf(Apply(c, a)) && AllTold(Apply(c, a))
  {
    AllToldIff(c.q);
    var r := Apply(c, a);
    assert forall k :: 0 <= k < |c.q.finished| ==> r.q.finished[k].recv;
    assert Wf(r);
    ApplyDone(c, a);
    AllToldIff(r.q);
  }

  lemma ApplyDone<T>(c: Config<T>, a: Action<T>)
    requires Wf(c) && Enabled(c, a) && SendersDone(c.q)
    ensures SendersDone(Apply(c, a).q)
  {
    ApplyLoad(c, a);
  }

  lemma AllToldIff<T>(q: TQ<T>)
    requires Valid(q) && SendersDone(q)
    ensures ReceiveLocked(q).1.AllDone? <==> forall k :: 0 <= k < |q.finished| ==> q.finished[k].recv
  {
    if forall k :: 0 <= k < |q.finished| ==> q.finished[k].recv {
      var fifo := DropClosed(q.fifo, q.finished);
      assert fifo == [];
    }
  }

  // ---- from a new queue ----

  /** All of it holds of every run of any number of threads over a new queue. */
  lemma FromStart<T>(nbStreams: nat, capacity: nat, nbThreads: nat, actions: seq<Action<T>>)
    requires capacity >= 1
    requires var c := Start<T>(nbStreams, capacity, nbThreads);
             NoLostWakeup(c) && Wf(c) ==> LegalRun(c, actions)
    ensures var c := Start<T>(nbStreams, capacity, nbThreads);
            NoLostWakeup(c) && Wf(c) && NoLostWakeup(Run(c, actions)) && Delivery(Run(c, actions))
  {
    StartOk<T>(nbStreams, capacity, nbThreads);
    var c := Start<T>(nbStreams, capacity, nbThreads);
    hide NoLostWakeup, Wf, Delivery, Start;
    NoWakeupLost(c, actions);
    DeliveredInOrder(c, actions);
  }
}
