/** The bounded multi-stream queue of fftools/thread_queue.c.

A mutex-held section is one atomic step. The functions say what each section does to the
queue; class `ThreadQueue` is the code of the sections, with its loops.
 */
module ThreadQueueModel {

  /** The two bits of finished[i]: FINISHED_SEND and FINISHED_RECV. */
  datatype Flags = Flags(send: bool, recv: bool)

  datatype Elem<T> = Elem(stream: nat, item: T)

  datatype TQ<T> = TQ(finished: seq<Flags>, fifo: seq<Elem<T>>, capacity: nat)

  predicate Valid<T>(q: TQ<T>) {
    && |q.fifo| <= q.capacity
    && forall k :: 0 <= k < |q.fifo| ==> q.fifo[k].stream < |q.finished|
  }

  function New<T>(nbStreams: nat, capacity: nat): TQ<T> {
    TQ(seq(nbStreams, _ => Flags(false, false)), [], capacity)
  }

  datatype SendResult = Sent | Blocked | Invalid | RecvClosed

  /** One turn of the wait loop of tq_send; Blocked is the wait on the condition variable. */
  function SendTurn<T>(q: TQ<T>, i: nat, x: T): (r: (TQ<T>, SendResult))
    requires Valid(q) && i < |q.finished|
    ensures Valid(r.0) && |r.0.finished| == |q.finished| && r.0.capacity == q.capacity
  {
    if q.finished[i].recv then (q.(finished := q.finished[i := Flags(true, true)]), RecvClosed)
    else if |q.fifo| >= q.capacity then (q, Blocked)
    else (q.(fifo := q.fifo + [Elem(i, x)]), Sent)
  }

  /** tq_send on entry: only here is a send-finished stream refused. */
  function SendEnter<T>(q: TQ<T>, i: nat, x: T): (r: (TQ<T>, SendResult))
    requires Valid(q) && i < |q.finished|
    ensures Valid(r.0) && |r.0.finished| == |q.finished| && r.0.capacity == q.capacity
  {
    if q.finished[i].send then (q, Invalid) else SendTurn(q, i, x)
  }

  datatype RecvResult<T> = Item(stream: nat, item: T) | EofOf(stream: nat) | AllDone | WouldBlock

  /** Items of streams the receiver has finished are thrown away. */
  function DropClosed<T>(fifo: seq<Elem<T>>, finished: seq<Flags>): (r: seq<Elem<T>>)
    requires forall k :: 0 <= k < |fifo| ==> fifo[k].stream < |finished|
    ensures |r| <= |fifo| && r == fifo[|fifo| - |r|..]
    ensures r != [] ==> !finished[r[0].stream].recv
    ensures forall k :: 0 <= k < |fifo| - |r| ==> finished[fifo[k].stream].recv
  {
    if fifo == [] || !finished[fifo[0].stream].recv then fifo else DropClosed(fifo[1..], finished)
  }

  /** The first stream at or after k whose end the receiver has not been told yet. */
  function FirstEnded(finished: seq<Flags>, k: nat): (r: nat)
    requires k <= |finished|
    ensures k <= r <= |finished|
    ensures r < |finished| ==> finished[r].send && !finished[r].recv
    ensures forall j :: k <= j < r ==> !(finished[j].send && !finished[j].recv)
    decreases |finished| - k
  {
    if k == |finished| || (finished[k].send && !finished[k].recv) then k else FirstEnded(finished, k + 1)
  }

  predicate AllEnded(finished: seq<Flags>) {
    forall k :: 0 <= k < |finished| ==> finished[k].send || finished[k].recv
  }

  /** receive_locked. */
  function ReceiveLocked<T>(q: TQ<T>): (r: (TQ<T>, RecvResult<T>))
    requires Valid(q)
    ensures Valid(r.0) && |r.0.finished| == |q.finished| && r.0.capacity == q.capacity
  {
    var fifo := DropClosed(q.fifo, q.finished);
    if fifo != [] then (q.(fifo := fifo[1..]), Item(fifo[0].stream, fifo[0].item))
    else
      var q1 := q.(fifo := []);
      var i := FirstEnded(q.finished, 0);
      if i < |q.finished| then (q1.(finished := q.finished[i := q.finished[i].(recv := true)]), EofOf(i))
      else if AllEnded(q.finished) then (q1, AllDone)
      else (q1, WouldBlock)
  }

  function SendFinish<T>(q: TQ<T>, i: nat): (r: TQ<T>)
    requires Valid(q) && i < |q.finished|
    ensures Valid(r) && |r.finished| == |q.finished|
  {
    q.(finished := q.finished[i := q.finished[i].(send := true)])
  }

  function ReceiveFinish<T>(q: TQ<T>, i: nat): (r: TQ<T>)
    requires Valid(q) && i < |q.finished|
    ensures Valid(r) && |r.finished| == |q.finished|
  {
    q.(finished := q.finished[i := q.finished[i].(recv := true)])
  }
}

/** What the two sections answer, read off the queue. */
module ThreadQueueAnswers {
  import opened ThreadQueueModel

  /** The answers of tq_send: EINVAL exactly after the end of the stream was sent, EOF, which ends it,
      exactly if the receiver has closed it, a wait exactly if the queue is full, and otherwise the item
      is queued last. */
  lemma SendMeans<T>(q: TQ<T>, i: nat, x: T)
    requires Valid(q) && i < |q.finished|
    ensures var (q', r) := SendEnter(q, i, x);
            if q.finished[i].send then r == Invalid && q' == q
            else if q.finished[i].recv then r == RecvClosed && q' == q.(finished := q.finished[i := Flags(true, true)])
            else if |q.fifo| == q.capacity then r == Blocked && q' == q
            else r == Sent && q' == q.(fifo := q.fifo + [Elem(i, x)])
  {
  }

  /** The end of stream j has been sent and not been reported. */
  predicate Unreported<T>(q: TQ<T>, j: int)
    requires 0 <= j < |q.finished|
  {
    q.finished[j].send && !q.finished[j].recv
  }

  /** No queued item is of a stream that the receiver still wants. */
  predicate NothingLeft<T>(q: TQ<T>)
    requires Valid(q)
  {
    forall k :: 0 <= k < |q.fifo| ==> q.finished[q.fifo[k].stream].recv
  }

  /** The answers of tq_receive: the first queued item of a stream the receiver has not closed, in the
      order of the sends over all streams; else the end of the first stream that has ended and was not
      reported; else that all have been, or a wait exactly while a stream is open. */
  lemma ReceiveMeans<T>(q: TQ<T>)
    requires Valid(q)
    ensures var (q', r) := ReceiveLocked(q);
            match r
            case Item(i, x) =>
              && q'.finished == q.finished
              && exists k :: 0 <= k < |q.fifo| && q.fifo[k] == Elem(i, x) && !q.finished[i].recv && q'.fifo == q.fifo[k + 1..]
                   && forall j :: 0 <= j < k ==> q.finished[q.fifo[j].stream].recv
            case EofOf(i) =>
              && i < |q.finished| && Unreported(q, i) && (forall j :: 0 <= j < i ==> !Unreported(q, j))
              && NothingLeft(q) && q' == q.(fifo := [], finished := q.finished[i := Flags(true, true)])
            case AllDone =>
              (forall j :: 0 <= j < |q.finished| ==> q.finished[j].recv) && NothingLeft(q) && q' == q.(fifo := [])
            case WouldBlock =>
              && (forall j :: 0 <= j < |q.finished| ==> !Unreported(q, j)) && NothingLeft(q) && q' == q.(fifo := [])
              && exists j :: 0 <= j < |q.finished| && q.finished[j] == Flags(false, false)
  {
    var fifo := DropClosed(q.fifo, q.finished);
    if fifo != [] {
      var k := |q.fifo| - |fifo|;
      assert q.fifo[k] == fifo[0] && q.fifo[k + 1..] == fifo[1..];
    }
  }
}

module ThreadQueues {
  import opened ThreadQueueModel

  class ThreadQueue<T> {
    const finished: array<Flags>
    const capacity: nat
    var fifo: seq<Elem<T>>

    ghost function State(): TQ<T>
      reads this, finished
    {
      TQ(finished[..], fifo, capacity)
    }

    constructor (nbStreams: nat, queueSize: nat)
      ensures fresh(finished) && State() == New(nbStreams, queueSize) && Valid(State())
    {
      finished := new Flags[nbStreams](_ => Flags(false, false));
      capacity := queueSize;
      fifo := [];
      new;
      assert finished[..] == seq(nbStreams, _ => Flags(false, false));
    }

    /** The mutex-held section of tq_send up to its first wait, or after a wake-up. `wake` says
        whether the condition variable is broadcast. */
    method Send(i: nat, data: T, entering: bool) returns (r: SendResult, wake: bool)
      requires Valid(State()) && i < finished.Length
      modifies this`fifo, finished
      ensures (State(), r) == if entering then SendEnter(old(State()), i, data) else SendTurn(old(State()), i, data)
      ensures wake <==> fifo != old(fifo)
    {
      ghost var q := State();
      if entering && finished[i].send {
        return Invalid, false;
      }
      if !finished[i].recv && |fifo| >= capacity {
        return Blocked, false;
      }
      if finished[i].recv {
        finished[i] := finished[i].(send := true);
        assert finished[..] == q.finished[i := Flags(true, true)];
        return RecvClosed, false;
      }
      fifo := fifo + [Elem(i, data)];
      return Sent, true;
    }

    /** One turn of tq_receive: receive_locked, and a broadcast if the FIFO changed. */
    method Receive() returns (r: RecvResult<T>, wake: bool)
      requires Valid(State())
      modifies this`fifo, finished
      ensures (State(), r) == ReceiveLocked(old(State()))
      ensures wake <==> |fifo| != |old(fifo)|
    {
      var canRead := |fifo|;
      r := ReceiveSection();
      wake := canRead != |fifo|;
    }

    method ReceiveSection() returns (r: RecvResult<T>)
      requires Valid(State())
      modifies this`fifo, finished
      ensures (State(), r) == ReceiveLocked(old(State()))
    {
      ghost var q := State();
      ghost var kept := DropClosed(fifo, finished[..]);
      while fifo != []
        invariant finished[..] == q.finished
        invariant forall k :: 0 <= k < |fifo| ==> fifo[k].stream < finished.Length
        invariant kept == DropClosed(fifo, q.finished)
        decreases |fifo|
      {
        var elem := fifo[0];
        fifo := fifo[1..];
        if !finished[elem.stream].recv {
          return Item(elem.stream, elem.item);
        }
      }
      r := ReceiveEnded();
    }

    /** The scan of the finish flags, when nothing is left to read. */
    method ReceiveEnded() returns (r: RecvResult<T>)
      modifies finished
      ensures var was := old(finished[..]);
              var i := FirstEnded(was, 0);
              if i < |was| then r == EofOf(i) && finished[..] == was[i := was[i].(recv := true)]
              else r == (if AllEnded(was) then AllDone else WouldBlock) && finished[..] == was
    {
      ghost var was := finished[..];
      var nbFinished := 0;
      for i := 0 to finished.Length
        invariant finished[..] == was
        invariant 0 <= nbFinished <= i
        invariant nbFinished == i <==> forall k :: 0 <= k < i ==> was[k].send || was[k].recv
        invariant FirstEnded(was, 0) == FirstEnded(was, i)
      {
        if finished[i].send || finished[i].recv {
          if !finished[i].recv {
            finished[i] := finished[i].(recv := true);
            return EofOf(i);
          }
          nbFinished := nbFinished + 1;
        }
      }
      return if nbFinished == finished.Length then AllDone else WouldBlock;
    }

    method SendFinish(i: nat)
      requires Valid(State()) && i < finished.Length
      modifies finished
      ensures State() == ThreadQueueModel.SendFinish(old(State()), i)
    {
      finished[i] := finished[i].(send := true);
    }

    method ReceiveFinish(i: nat)
      requires Valid(State()) && i < finished.Length
      modifies finished
      ensures State() == ThreadQueueModel.ReceiveFinish(old(State()), i)
    {
      finished[i] := finished[i].(recv := true);
    }
  }
}
