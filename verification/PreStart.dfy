/** Packets submitted before the muxer thread exists are queued per stream and flushed when it
starts (fftools/ffmpeg_mux.c:267-348, 493-533). */
module PreStartModel {
  import opened Wrappers

  datatype Packet = Packet(id: int, size: nat)

  /** What tq_send answers: sent, stream closed by the muxer, or another error. */
  datatype Answer = Sent | Closed | Failed

  /** tq_send's answer to the n-th packet handed to it for stream i. */
  type Answers = (nat, nat) -> Answer

  /** `handed` is what tq_send was given; None in the queue is the end of the stream. */
  datatype Stream = Stream(
    queue: seq<Option<Packet>>, capacity: nat, dataSize: nat, finished: bool, handed: seq<Packet>)

  datatype Limits = Limits(maxQueue: nat, dataThreshold: nat)

  function NewStream(): Stream {
    Stream([], 8, 0, false, [])
  }

  /** thread_submit_packet; the second result is false on an error other than a closed stream. */
  function ThreadSubmit(st: Stream, i: nat, answers: Answers, pkt: Option<Packet>): (Stream, bool) {
    if pkt.None? || st.finished then (st.(finished := true), true)
    else
      var st' := st.(handed := st.handed + [pkt.value]);
      match answers(i, |st.handed|)
      case Sent => (st', true)
      case Closed => (st'.(finished := true), true)
      case Failed => (st'.(finished := true), false)
  }

  /** What it means: a packet of an open stream goes to tq_send, and only one that is taken leaves the
      stream open; an end mark, or anything after the end, closes it and is no error. */
  lemma SubmitMeans(st: Stream, i: nat, answers: Answers, pkt: Option<Packet>)
    ensures var (st', ok) := ThreadSubmit(st, i, answers, pkt);
            var given := pkt.Some? && !st.finished;
            && st' == st.(handed := st'.handed, finished := st'.finished)
            && st'.handed == st.handed + (if given then [pkt.value] else [])
            && (st'.finished <==> !given || answers(i, |st.handed|) != Sent)
            && (!ok <==> given && answers(i, |st.handed|) == Failed)
  {
  }

  function PacketSize(pkt: Option<Packet>): nat {
    if pkt.Some? then pkt.value.size else 0
  }

  /** The capacity after growing a full queue; no growth means ENOSPC. */
  function Grown(st: Stream, limits: Limits, pkt: Option<Packet>): nat {
    var cur := |st.queue|;
    if st.dataSize + PacketSize(pkt) > limits.dataThreshold && limits.maxQueue < 2 * cur then limits.maxQueue
    else 2 * cur
  }

  /** queue_packet; the second result is false for ENOSPC. */
  function QueuePacket(st: Stream, limits: Limits, pkt: Option<Packet>): (Stream, bool) {
    var full := |st.queue| >= st.capacity;
    if full && Grown(st, limits, pkt) <= |st.queue| then (st, false)
    else
      (st.(queue := st.queue + [pkt], dataSize := st.dataSize + PacketSize(pkt),
           capacity := if full then Grown(st, limits, pkt) else st.capacity), true)
  }

  /** A packet is refused exactly if the queue is full, its data exceeds the threshold and the
      packet limit is reached. */
  lemma RefusedIff(st: Stream, limits: Limits, pkt: Option<Packet>)
    requires 0 < st.capacity && |st.queue| <= st.capacity
    ensures !QueuePacket(st, limits, pkt).1 <==>
              && |st.queue| == st.capacity
              && st.dataSize + PacketSize(pkt) > limits.dataThreshold
              && limits.maxQueue <= |st.queue|
    ensures var st' := QueuePacket(st, limits, pkt).0; 0 < st'.capacity && |st'.queue| <= st'.capacity
  {
  }

  /** The data held in a queue. */
  function SizeOf(queue: seq<Option<Packet>>): nat {
    if queue == [] then 0 else PacketSize(queue[0]) + SizeOf(queue[1..])
  }

  lemma {:induction false} SizeAppend(queue: seq<Option<Packet>>, pkt: Option<Packet>)
    ensures SizeOf(queue + [pkt]) == SizeOf(queue) + PacketSize(pkt)
  {
    if queue == [] {
      assert queue + [pkt] == [pkt] && [pkt][1..] == [];
    } else {
      SizeAppend(queue[1..], pkt);
      assert (queue + [pkt])[1..] == queue[1..] + [pkt];
    }
  }

  /** The bookkeeping of a queue before the start. */
  predicate QueueOk(st: Stream) {
    0 < st.capacity && |st.queue| <= st.capacity && st.dataSize == SizeOf(st.queue)
  }

  /** A packet taken is appended and its data counted. A queue that was full has doubled by then, but
      to the packet limit at most once its data is over the threshold. */
  lemma QueueMeans(st: Stream, limits: Limits, pkt: Option<Packet>)
    requires QueueOk(st)
    ensures var (st', ok) := QueuePacket(st, limits, pkt);
            && QueueOk(st')
            && (!ok ==> st' == st)
            && (!ok <==> |st.queue| == st.capacity && SizeOf(st.queue + [pkt]) > limits.dataThreshold
                         && limits.maxQueue <= |st.queue|)
            && (ok ==>
                  && st' == st.(queue := st.queue + [pkt], dataSize := st'.dataSize, capacity := st'.capacity)
                  && (|st.queue| < st.capacity ==> st'.capacity == st.capacity)
                  && (|st.queue| == st.capacity ==>
                        st'.capacity == if SizeOf(st.queue + [pkt]) > limits.dataThreshold && limits.maxQueue < 2 * st.capacity
                                        then limits.maxQueue else 2 * st.capacity))
  {
    SizeAppend(st.queue, pkt);
  }

  /** The loop of thread_start over one queue; it stops at the first error. */
  function Flush(st: Stream, i: nat, answers: Answers): (r: (Stream, bool))
    ensures r.1 ==> r.0.queue == []
    decreases |st.queue|
  {
    if st.queue == [] then (st, true)
    else
      var pkt := st.queue[0];
      var (st', ok) := ThreadSubmit(st.(queue := st.queue[1..]), i, answers, pkt);
      if ok then Flush(st', i, answers) else (st', false)
  }

  datatype Mux = Mux(streams: seq<Stream>, started: bool)

  datatype Op = Submit(i: nat, pkt: Option<Packet>) | Start

  function FlushAll(streams: seq<Stream>, answers: Answers, k: nat): (r: (seq<Stream>, bool))
    requires k <= |streams|
    ensures |r.0| == |streams|
    decreases |streams| - k
  {
    if k == |streams| then (streams, true)
    else
      var (st, ok) := Flush(streams[k], k, answers);
      if ok then FlushAll(streams[k := st], answers, k + 1) else (streams[k := st], false)
  }

  /** submit_packet and thread_start; false is any error. */
  function Apply(m: Mux, limits: Limits, answers: Answers, op: Op): (r: (Mux, bool))
    requires op.Submit? ==> op.i < |m.streams|
    ensures |r.0.streams| == |m.streams|
  {
    match op
    case Submit(i, pkt) =>
      var (st, ok) := if m.started then ThreadSubmit(m.streams[i], i, answers, pkt)
                      else QueuePacket(m.streams[i], limits, pkt);
      (m.(streams := m.streams[i := st]), ok)
    case Start =>
      if m.started then (m, true)
      else
        var (streams, ok) := FlushAll(m.streams, answers, 0);
        (Mux(streams, true), ok)
  }

  // ---- direct submission ----

  /** What a stream would look like had the muxer run from the start. */
  function Direct(i: nat, answers: Answers, items: seq<Option<Packet>>): Stream {
    if items == [] then NewStream()
    else ThreadSubmit(Direct(i, answers, items[..|items| - 1]), i, answers, items[|items| - 1]).0
  }

  /** The packets up to the first end mark, or up to the first that tq_send does not take, that one
      included; and whether there is such an end. `n` packets have been handed over before. */
  function Reached(i: nat, answers: Answers, items: seq<Option<Packet>>, n: nat): (seq<Packet>, bool)
    decreases |items|
  {
    if items == [] then ([], false)
    else if items[0].None? then ([], true)
    else if answers(i, n) != Sent then ([items[0].value], true)
    else
      var (rest, ended) := Reached(i, answers, items[1..], n + 1);
      ([items[0].value] + rest, ended)
  }

  lemma {:induction false} ReachedAppend(i: nat, answers: Answers, items: seq<Option<Packet>>, n: nat, pkt: Option<Packet>)
    ensures var (packets, ended) := Reached(i, answers, items, n);
            Reached(i, answers, items + [pkt], n)
            == if ended || pkt.None? then (packets, true)
               else (packets + [pkt.value], answers(i, n + |packets|) != Sent)
    decreases |items|
  {
    if items == [] {
      assert items + [pkt] == [pkt] && [pkt][1..] == [];
      if pkt.Some? {
        assert [pkt.value] + [] == [] + [pkt.value] == [pkt.value];
        assert Reached(i, answers, [pkt][1..], n + 1) == ([], false);
        assert Reached(i, answers, [pkt], n) == ([pkt.value], answers(i, n) != Sent);
      }
    } else {
      assert (items + [pkt])[1..] == items[1..] + [pkt];
      ReachedAppend(i, answers, items[1..], n + 1, pkt);
      var rest := Reached(i, answers, items[1..], n + 1).0;
      if items[0].Some? && pkt.Some? {
        assert [items[0].value] + (rest + [pkt.value]) == ([items[0].value] + rest) + [pkt.value];
      }
    }
  }

  /** Direct submission hands over just these. */
  lemma {:induction false} DirectIs(i: nat, answers: Answers, items: seq<Option<Packet>>)
    ensures var st := Direct(i, answers, items); (st.handed, st.finished) == Reached(i, answers, items, 0)
  {
    if items != [] {
      var last := |items| - 1;
      DirectIs(i, answers, items[..last]);
      ReachedAppend(i, answers, items[..last], 0, items[last]);
      assert items[..last] + [items[last]] == items;
    }
  }

  /** The packets and end marks submitted for stream i. */
  function ItemsOf(ops: seq<Op>, i: nat): seq<Option<Packet>> {
    if ops == [] then []
    else
      var last := ops[|ops| - 1];
      ItemsOf(ops[..|ops| - 1], i) + if last.Submit? && last.i == i then [last.pkt] else []
  }

  predicate OpsInRange(ops: seq<Op>, n: nat) {
    forall k :: 0 <= k < |ops| ==> ops[k].Submit? ==> ops[k].i < n
  }

  /** The state after all operations, and whether all of them succeeded. */
  function Run(n: nat, limits: Limits, answers: Answers, ops: seq<Op>): (r: (Mux, bool))
    requires OpsInRange(ops, n)
    ensures |r.0.streams| == n
  {
    if ops == [] then (Mux(seq(n, _ => NewStream()), false), true)
    else
      var (m, ok) := Run(n, limits, answers, ops[..|ops| - 1]);
      var (m', ok') := Apply(m, limits, answers, ops[|ops| - 1]);
      (m', ok && ok')
  }

  /** Before the start the books of every queue are right, whatever has been submitted. */
  lemma {:induction false} QueuesOk(n: nat, limits: Limits, answers: Answers, ops: seq<Op>, i: nat)
    requires OpsInRange(ops, n) && i < n && !Run(n, limits, answers, ops).0.started
    ensures QueueOk(Run(n, limits, answers, ops).0.streams[i])
  {
    if ops != [] {
      var before := ops[..|ops| - 1];
      QueuesOk(n, limits, answers, before, i);
      var op := ops[|ops| - 1];
      if op.Submit? && op.i == i {
        QueueMeans(Run(n, limits, answers, before).0.streams[i], limits, op.pkt);
      }
    }
  }

  /** Apart from how its queue was used, a stream looks like another. */
  predicate Alike(a: Stream, b: Stream) {
    a.finished == b.finished && a.handed == b.handed
  }

  /** How many entries a flush takes off the queue. */
  function Taken(st: Stream, i: nat, answers: Answers): (n: nat)
    ensures n <= |st.queue|
    decreases |st.queue|
  {
    if st.queue == [] then 0
    else
      var (st', ok) := ThreadSubmit(st.(queue := st.queue[1..]), i, answers, st.queue[0]);
      if ok then 1 + Taken(st', i, answers) else 1
  }

  /** Submitting the last of these items directly fails. */
  predicate Fails(i: nat, answers: Answers, items: seq<Option<Packet>>)
    requires items != []
  {
    !ThreadSubmit(Direct(i, answers, items[..|items| - 1]), i, answers, items[|items| - 1]).1
  }

  /** One more entry, from the queue or directly. */
  lemma SubmitAlike(st: Stream, i: nat, answers: Answers, done: seq<Option<Packet>>)
    requires Alike(st, Direct(i, answers, done)) && st.queue != []
    ensures var (st', ok) := ThreadSubmit(st.(queue := st.queue[1..]), i, answers, st.queue[0]);
            && st'.queue == st.queue[1..]
            && Alike(st', Direct(i, answers, done + [st.queue[0]]))
            && (ok <==> !Fails(i, answers, done + [st.queue[0]]))
  {
    assert (done + [st.queue[0]])[..|done|] == done;
  }

  lemma {:induction false} FlushTakes(st: Stream, i: nat, answers: Answers, done: seq<Option<Packet>>)
    requires Alike(st, Direct(i, answers, done))
    ensures var (r, ok) := Flush(st, i, answers);
            var n := Taken(st, i, answers);
            r.queue == st.queue[n..] && (if ok then n == |st.queue| else n > 0)
    ensures Alike(Flush(st, i, answers).0, Direct(i, answers, done + st.queue[..Taken(st, i, answers)]))
    decreases |st.queue|
  {
    if st.queue == [] {
      assert done + [] == done;
    } else {
      var pkt := st.queue[0];
      var (st', ok) := ThreadSubmit(st.(queue := st.queue[1..]), i, answers, pkt);
      SubmitAlike(st, i, answers, done);
      hide Direct, ThreadSubmit, Alike, Fails;
      if ok {
        FlushTakes(st', i, answers, done + [pkt]);
        Shift(done, st.queue, 1 + Taken(st', i, answers));
      } else {
        assert st.queue[..1] == [pkt];
      }
    }
  }

  lemma Shift(done: seq<Option<Packet>>, queue: seq<Option<Packet>>, m: nat)
    requires 0 < m <= |queue|
    ensures done + [queue[0]] + queue[1..][..m - 1] == done + queue[..m]
    ensures queue[1..][m - 1..] == queue[m..]
  {
    assert [queue[0]] + queue[1..][..m - 1] == queue[..m];
  }

  lemma {:induction false} FirstFailure(st: Stream, i: nat, answers: Answers, done: seq<Option<Packet>>, m: nat)
    requires Alike(st, Direct(i, answers, done)) && 0 < m <= Taken(st, i, answers)
    ensures Fails(i, answers, done + st.queue[..m]) <==> m == Taken(st, i, answers) && !Flush(st, i, answers).1
    decreases |st.queue|
  {
    var pkt := st.queue[0];
    var (st', ok) := ThreadSubmit(st.(queue := st.queue[1..]), i, answers, pkt);
    SubmitAlike(st, i, answers, done);
    hide Direct, ThreadSubmit, Alike, Fails;
    Shift(done, st.queue, m);
    if m > 1 {
      FirstFailure(st', i, answers, done + [pkt], m - 1);
    } else {
      assert done + st.queue[..1] == done + [pkt];
      assert ok && Taken(st', i, answers) == 0 ==> Flush(st', i, answers).1 by {
        FlushTakes(st', i, answers, done + [pkt]);
      }
    }
  }

  /** A flush takes entries off the queue and hands over what direct submission of them would: all,
      or those up to the first that fails, the others staying queued. */
  lemma FlushStops(st: Stream, i: nat, answers: Answers, done: seq<Option<Packet>>) returns (n: nat)
    requires Alike(st, Direct(i, answers, done))
    ensures n <= |st.queue|
    ensures var (r, ok) := Flush(st, i, answers);
            && r.queue == st.queue[n..] && Alike(r, Direct(i, answers, done + st.queue[..n]))
            && (if ok then n == |st.queue| else n > 0)
            && forall m :: 0 < m <= n ==> (Fails(i, answers, done + st.queue[..m]) <==> m == n && !ok)
  {
    n := Taken(st, i, answers);
    FlushTakes(st, i, answers, done);
    forall m | 0 < m <= n
      ensures Fails(i, answers, done + st.queue[..m]) <==> m == n && !Flush(st, i, answers).1
    {
      FirstFailure(st, i, answers, done, m);
    }
    hide Fails, Direct, Flush;
  }

  /** A flush that succeeds is direct submission of the whole queue. */
  lemma FlushIsDirect(st: Stream, i: nat, answers: Answers, done: seq<Option<Packet>>)
    requires Alike(st, Direct(i, answers, done))
    requires Flush(st, i, answers).1
    ensures Alike(Flush(st, i, answers).0, Direct(i, answers, done + st.queue))
  {
    FlushTakes(st, i, answers, done);
    assert st.queue[..|st.queue|] == st.queue;
    hide Direct, Flush, Alike, Taken;
  }

  /** If a start fails, the queue of one stream has failed, those before it are flushed, and those
      behind it are as they were. */
  lemma {:induction false} FlushAllStops(streams: seq<Stream>, answers: Answers, k: nat) returns (n: nat)
    requires k <= |streams| && !FlushAll(streams, answers, k).1
    ensures k <= n < |streams| && !Flush(streams[n], n, answers).1
    ensures forall j :: k <= j < n ==> Flush(streams[j], j, answers).1
    ensures var r := FlushAll(streams, answers, k).0;
            forall j :: 0 <= j < |streams| ==> r[j] == if k <= j <= n then Flush(streams[j], j, answers).0 else streams[j]
    decreases |streams| - k
  {
    n := k;
    if k < |streams| && Flush(streams[k], k, answers).1 {
      var streams' := streams[k := Flush(streams[k], k, answers).0];
      n := FlushAllStops(streams', answers, k + 1);
      assert forall j :: k < j < |streams| ==> streams'[j] == streams[j];
      hide Flush;
    }
  }

  lemma {:induction false} FlushAllStream(streams: seq<Stream>, answers: Answers, k: nat, i: nat)
    requires k <= |streams| && i < |streams| && FlushAll(streams, answers, k).1
    ensures FlushAll(streams, answers, k).0[i] == if k <= i then Flush(streams[i], i, answers).0 else streams[i]
    ensures k <= i ==> Flush(streams[i], i, answers).1
    decreases |streams| - k
  {
    if k < |streams| {
      var st := Flush(streams[k], k, answers).0;
      FlushAllStream(streams[k := st], answers, k + 1, i);
    }
  }

  /** Stream i of m stands where direct submission of `items` would be, or still holds them all. */
  predicate Matches(m: Mux, i: nat, answers: Answers, items: seq<Option<Packet>>)
    requires i < |m.streams|
  {
    if m.started then m.streams[i].queue == [] && Alike(m.streams[i], Direct(i, answers, items))
    else m.streams[i].queue == items && m.streams[i].handed == [] && !m.streams[i].finished
  }

  lemma SubmitMatches(m: Mux, limits: Limits, answers: Answers, i: nat, pkt: Option<Packet>, items: seq<Option<Packet>>)
    requires i < |m.streams| && Matches(m, i, answers, items)
    requires m.started || Apply(m, limits, answers, Submit(i, pkt)).1
    ensures Matches(Apply(m, limits, answers, Submit(i, pkt)).0, i, answers, items + [pkt])
  {
    assert (items + [pkt])[..|items|] == items;
  }

  lemma StartMatches(m: Mux, limits: Limits, answers: Answers, i: nat, items: seq<Option<Packet>>)
    requires i < |m.streams| && Matches(m, i, answers, items) && (m.started || Apply(m, limits, answers, Start).1)
    ensures Matches(Apply(m, limits, answers, Start).0, i, answers, items)
  {
    if !m.started {
      FlushAllStream(m.streams, answers, 0, i);
      FlushIsDirect(m.streams[i], i, answers, []);
      assert [] + m.streams[i].queue == items;
    }
  }

  /** Nothing fails that concerns stream i before the muxer runs: no packet of it is refused, and the
      start, with its flush, succeeds. Whatever fails later does not matter. */
  predicate StartsWell(n: nat, limits: Limits, answers: Answers, ops: seq<Op>, i: nat)
    requires OpsInRange(ops, n)
  {
    ops != [] ==>
      var m := Run(n, limits, answers, ops[..|ops| - 1]).0;
      var op := ops[|ops| - 1];
      && StartsWell(n, limits, answers, ops[..|ops| - 1], i)
      && (m.started || (op.Submit? && op.i != i) || Apply(m, limits, answers, op).1)
  }

  /** Wherever the muxer starts, and as long as it starts well, tq_send gets for every stream the
      packets it would have got with the muxer running from the start, in the same order. */
  lemma {:induction false} BufferingIsDirect(n: nat, limits: Limits, answers: Answers, ops: seq<Op>, i: nat)
    requires OpsInRange(ops, n) && i < n && StartsWell(n, limits, answers, ops, i)
    ensures Matches(Run(n, limits, answers, ops).0, i, answers, ItemsOf(ops, i))
  {
    if ops != [] {
      var before := ops[..|ops| - 1];
      BufferingIsDirect(n, limits, answers, before, i);
      var m := Run(n, limits, answers, before).0;
      var op := ops[|ops| - 1];
      var items := ItemsOf(before, i);
      assert items + [] == items;
      if op == Start {
        hide Matches, FlushAll;
        StartMatches(m, limits, answers, i, items);
      } else if op.i == i {
        hide Matches, ThreadSubmit, QueuePacket;
        SubmitMatches(m, limits, answers, i, op.pkt, items);
      }
    }
  }
}

module PreStartMuxer {
  import opened PreStartModel
  import opened Wrappers

  class Muxer {
    var streams: seq<Stream>
    var started: bool
    const limits: Limits
    const answers: Answers

    ghost function State(): Mux
      reads this
    {
      Mux(streams, started)
    }

    constructor (nbStreams: nat, limits: Limits, answers: Answers)
      ensures State() == Mux(seq(nbStreams, _ => NewStream()), false)
      ensures this.limits == limits && this.answers == answers
    {
      streams := seq(nbStreams, _ => NewStream());
      started := false;
      this.limits := limits;
      this.answers := answers;
    }

    method SubmitPacket(i: nat, pkt: Option<Packet>) returns (ok: bool)
      requires i < |streams|
      modifies this
      ensures (State(), ok) == Apply(old(State()), limits, answers, Submit(i, pkt))
    {
      if started {
        ok := ThreadSubmitPacket(i, pkt);
      } else {
        ok := Queue(i, pkt);
      }
    }

    method ThreadSubmitPacket(i: nat, pkt: Option<Packet>) returns (ok: bool)
      requires i < |streams|
      modifies this`streams
      ensures var (st, ok') := ThreadSubmit(old(streams)[i], i, answers, pkt);
              ok == ok' && streams == old(streams)[i := st]
    {
      var st := streams[i];
      var ret := Sent;
      if pkt.Some? && !st.finished {
        ret := answers(i, |st.handed|);
        st := st.(handed := st.handed + [pkt.value]);
        if ret == Sent {
          streams := streams[i := st];
          return true;
        }
      }
      streams := streams[i := st.(finished := true)];
      return ret != Failed;
    }

    method Queue(i: nat, pkt: Option<Packet>) returns (ok: bool)
      requires i < |streams|
      modifies this`streams
      ensures var (st, ok') := QueuePacket(old(streams)[i], limits, pkt);
              ok == ok' && streams == old(streams)[i := st]
    {
      var st := streams[i];
      if |st.queue| >= st.capacity {
        var curSize := |st.queue|;
        var pktSize := if pkt.Some? then pkt.value.size else 0;
        var overSize := st.dataSize + pktSize > limits.dataThreshold;
        var newSize := 2 * curSize;
        if overSize && limits.maxQueue < newSize {
          newSize := limits.maxQueue;
        }
        if newSize <= curSize {
          assert streams == streams[i := st];
          return false;
        }
        st := st.(capacity := newSize);
      }
      if pkt.Some? {
        st := st.(dataSize := st.dataSize + pkt.value.size);
      }
      streams := streams[i := st.(queue := st.queue + [pkt])];
      return true;
    }

    /** thread_start: the thread exists, the queues are flushed stream by stream. */
    method ThreadStart() returns (ok: bool)
      requires !started
      modifies this
      ensures (State(), ok) == Apply(old(State()), limits, answers, Start)
    {
      ghost var all := FlushAll(streams, answers, 0);
      started := true;
      for i := 0 to |streams|
        invariant started && |streams| == |old(streams)|
        invariant all == FlushAll(streams, answers, i)
      {
        var flushed := FlushStream(i);
        if !flushed {
          return false;
        }
      }
      return true;
    }

    method FlushStream(i: nat) returns (ok: bool)
      requires i < |streams|
      modifies this`streams
      ensures (streams, ok) == var (st, ok') := Flush(old(streams)[i], i, answers); (old(streams)[i := st], ok')
    {
      ghost var result := Flush(streams[i], i, answers);
      ghost var others := streams;
      while streams[i].queue != []
        invariant |streams| == |others| && streams == others[i := streams[i]]
        invariant result == Flush(streams[i], i, answers)
        decreases |streams[i].queue|
      {
        var pkt := streams[i].queue[0];
        streams := streams[i := streams[i].(queue := streams[i].queue[1..])];
        var submitted := ThreadSubmitPacket(i, pkt);
        if !submitted {
          assert streams == others[i := streams[i]];
          return false;
        }
      }
      return true;
    }
  }
}
