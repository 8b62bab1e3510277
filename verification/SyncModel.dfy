/** The sync queue as a value: fftools/sync_queue.c, one function per operation.

Each function says what an operation does to the whole queue in terms of the instants the
timestamps stand for. Class `SyncQueue` is the code with its loops; its methods are proved
to compute these functions.
 */
module SyncModel {
  import opened Arithmetic
  import opened Time

  /** A packet or a frame. `samples` is empty unless the frame is audio; `props` stands for
      everything that is copied along unchanged. The rate of a non-audio frame is not used. */
  datatype Frame = Frame(pts: int, duration: int, tb: Rational, rate: Pos, samples: seq<int>, props: int)

  datatype Stream = Stream(
    fifo: seq<Frame>,
    tb: Rational,
    samplesQueued: int,
    headTs: int,
    limiting: bool,
    finished: bool,
    framesSent: nat,
    samplesSent: nat,
    framesMax: nat,
    frameSamples: nat)

  datatype Queue = Queue(
    streams: seq<Stream>,
    finished: bool,
    head: int,
    headFinished: int,
    bufSize: int,
    haveLimiting: bool)

  /** What sq_add_stream makes: no timestamp, the base 1/1 and no frame limit. */
  function NewStream(limiting: bool): Stream {
    Stream([], Rational(1, 1), 0, NOPTS, limiting, false, 0, 0, 0xffff_ffff_ffff_ffff, 0)
  }

  function AddStream(q: Queue, limiting: bool): Queue {
    q.(streams := q.streams + [NewStream(limiting)], haveLimiting := q.haveLimiting || limiting)
  }

  predicate HasTs(st: Stream) {
    st.headTs != NOPTS
  }

  ghost function HeadTime(st: Stream): real {
    Instant(st.headTs, st.tb)
  }

  ghost predicate InBounds(q: Queue) {
    && -1 <= q.head < |q.streams|
    && -1 <= q.headFinished < |q.streams|
    && (q.haveLimiting <==> exists k :: 0 <= k < |q.streams| && q.streams[k].limiting)
  }

  // ---- frames ----

  /** The length of n samples in ticks of the frame's time base. */
  function SampleTicks(f: Frame, n: nat): int {
    Rescale(n, Rational(1, f.rate), f.tb)
  }

  function FrameEnd(f: Frame, n: nat): int {
    if n != 0 then f.pts + SampleTicks(f, n) else f.pts + f.duration
  }

  /** What sq_send stores: an audio frame's duration follows its sample count. */
  function Normalise(f: Frame): Frame {
    if |f.samples| != 0 then f.(duration := SampleTicks(f, |f.samples|)) else f
  }

  /** offset_audio: drop the first n samples. */
  function Trim(f: Frame, n: nat): Frame
    requires n < |f.samples|
  {
    f.(samples := f.samples[n..],
       duration := SampleTicks(f, |f.samples| - n),
       pts := f.pts + SampleTicks(f, n))
  }

  function Total(fifo: seq<Frame>): nat {
    if fifo == [] then 0 else |fifo[0].samples| + Total(fifo[1..])
  }

  // ---- finishing and heads ----

  ghost predicate Beyond(streams: seq<Stream>, mark: int, k: int)
    requires 0 <= mark < |streams| && 0 <= k < |streams|
  {
    k != mark && HasTs(streams[k]) && HeadTime(streams[mark]) <= HeadTime(streams[k])
  }

  ghost function MarkBeyond(streams: seq<Stream>, mark: int): (r: seq<Stream>)
    requires 0 <= mark < |streams|
    ensures |r| == |streams|
    ensures forall k :: 0 <= k < |r| ==> r[k] == streams[k].(finished := r[k].finished)
  {
    seq(|streams|, k requires 0 <= k < |streams| =>
      if Beyond(streams, mark, k) then streams[k].(finished := true) else streams[k])
  }

  predicate AllFinished(streams: seq<Stream>) {
    forall k :: 0 <= k < |streams| ==> streams[k].finished
  }

  ghost function FinishedMark(q: Queue, i: int): int
    requires InBounds(q) && 0 <= i < |q.streams|
  {
    if q.headFinished < 0 || HeadTime(q.streams[i]) < HeadTime(q.streams[q.headFinished])
    then i else q.headFinished
  }

  lemma SameLimits(q: Queue, r: Queue)
    requires InBounds(q) && |r.streams| == |q.streams| && r.haveLimiting == q.haveLimiting
    requires -1 <= r.head < |r.streams| && -1 <= r.headFinished < |r.streams|
    requires forall k :: 0 <= k < |q.streams| ==> r.streams[k].limiting == q.streams[k].limiting
    ensures InBounds(r)
  {
  }

  ghost function FinishStream(q: Queue, i: int): (r: Queue)
    requires InBounds(q) && 0 <= i < |q.streams|
    ensures InBounds(r) && OnlyHeads(q, r)
  {
    var st := q.streams[i].(finished := true);
    var s1 := q.streams[i := st];
    var r := if st.limiting && HasTs(st)
      then var mark := FinishedMark(q, i); q.(streams := MarkBeyond(s1, mark), headFinished := mark)
      else q.(streams := s1);
    SameLimits(q, r);
    r.(finished := q.finished || AllFinished(r.streams))
  }

  /** Only head timestamps and finish flags of the streams differ. */
  ghost predicate OnlyHeads(q: Queue, r: Queue) {
    && |r.streams| == |q.streams|
    && r.bufSize == q.bufSize && r.haveLimiting == q.haveLimiting
    && forall k :: 0 <= k < |q.streams| ==>
         r.streams[k] == q.streams[k].(headTs := r.streams[k].headTs, finished := r.streams[k].finished)
  }

  predicate AllTimed(streams: seq<Stream>) {
    forall k :: 0 <= k < |streams| && streams[k].limiting ==> HasTs(streams[k])
  }

  function FirstLimiting(streams: seq<Stream>, k: nat): (r: nat)
    requires k <= |streams|
    ensures k <= r <= |streams|
    ensures r < |streams| ==> streams[r].limiting
    ensures forall j :: k <= j < r ==> !streams[j].limiting
    decreases |streams| - k
  {
    if k == |streams| || streams[k].limiting then k else FirstLimiting(streams, k + 1)
  }

  /** The last loop of queue_head_update, from stream k on with `best` so far. */
  ghost function ScanHead(streams: seq<Stream>, best: int, k: nat): (r: int)
    requires 0 <= best < |streams| && k <= |streams|
    ensures 0 <= r < |streams|
    decreases |streams| - k
  {
    if k == |streams| then best
    else if streams[k].limiting && HasTs(streams[k]) && HeadTime(streams[k]) < HeadTime(streams[best])
    then ScanHead(streams, k, k + 1)
    else ScanHead(streams, best, k + 1)
  }

  ghost function HeadUpdate(q: Queue): (r: Queue)
    requires InBounds(q) && q.haveLimiting
    ensures r == q.(head := r.head) && InBounds(r)
  {
    if q.head < 0 && !AllTimed(q.streams) then q
    else
      var start := if q.head < 0 then FirstLimiting(q.streams, 0) else q.head;
      q.(head := ScanHead(q.streams, start, 0))
  }

  ghost function SetHead(q: Queue, i: int, ts: int): (r: Queue)
    requires InBounds(q) && 0 <= i < |q.streams|
    ensures InBounds(r) && OnlyHeads(q, r)
  {
    var r := q.(streams := q.streams[i := q.streams[i].(headTs := ts)]);
    SameLimits(q, r);
    r
  }

  ghost function UpdateTs(q: Queue, i: int, ts: int): (r: Queue)
    requires InBounds(q) && 0 <= i < |q.streams|
    ensures InBounds(r) && OnlyHeads(q, r)
  {
    var st := q.streams[i];
    if ts == NOPTS || (HasTs(st) && st.headTs >= ts) then q
    else
      var q1 := SetHead(q, i, ts);
      var q2 := if q1.headFinished >= 0 && HeadTime(q1.streams[q1.headFinished]) <= Instant(ts, st.tb)
                then FinishStream(q1, i) else q1;
      if st.limiting && (q2.head < 0 || q2.head == i) then HeadUpdate(q2) else q2
  }

  // ---- sending ----

  function TbUpdate(st: Stream, tb: Rational): Stream {
    if st.tb == tb then st
    else st.(tb := tb, headTs := if HasTs(st) then Rescale(st.headTs, st.tb, tb) else NOPTS)
  }

  /** What sq_send asserts of its caller: the time base changes only while nothing is queued. */
  predicate MaySend(st: Stream, f: Frame) {
    st.tb == f.tb || st.fifo == []
  }

  function Enqueue(st: Stream, f: Frame): Stream {
    var t := TbUpdate(st, f.tb);
    t.(fifo := t.fifo + [Normalise(f)])
  }

  function Count(st: Stream, n: nat): Stream {
    var total := st.samplesSent + n;
    st.(samplesQueued := st.samplesQueued + n,
        samplesSent := total,
        framesSent := if st.frameSamples != 0 then total / st.frameSamples else st.framesSent + 1)
  }

  ghost function SetStream(q: Queue, i: int, st: Stream): (r: Queue)
    requires InBounds(q) && 0 <= i < |q.streams| && st.limiting == q.streams[i].limiting
    ensures InBounds(r)
  {
    var r := q.(streams := q.streams[i := st]);
    SameLimits(q, r);
    r
  }

  /** sq_send up to the frame limit: queue the frame, move the head, count. */
  ghost function Accept(q: Queue, i: int, f: Frame): (r: Queue)
    requires InBounds(q) && 0 <= i < |q.streams|
    ensures InBounds(r) && |r.streams| == |q.streams|
  {
    var q1 := SetStream(q, i, Enqueue(q.streams[i], f));
    var q2 := UpdateTs(q1, i, FrameEnd(Normalise(f), 0));
    SetStream(q2, i, Count(q2.streams[i], |f.samples|))
  }

  ghost function SendFrame(q: Queue, i: int, f: Frame): (r: Queue)
    requires InBounds(q) && 0 <= i < |q.streams|
    ensures InBounds(r) && |r.streams| == |q.streams|
  {
    if q.streams[i].finished then q
    else
      var r := Accept(q, i, f);
      if r.streams[i].framesSent >= r.streams[i].framesMax then FinishStream(r, i) else r
  }

  ghost function LimitFrames(q: Queue, i: int, frames: nat): (r: Queue)
    requires InBounds(q) && 0 <= i < |q.streams|
    ensures InBounds(r) && |r.streams| == |q.streams|
  {
    var q1 := SetStream(q, i, q.streams[i].(framesMax := frames));
    if q1.streams[i].framesSent >= frames then FinishStream(q1, i) else q1
  }

  // ---- receiving ----

  /** The copying loop of receive_samples: n samples off the front of the FIFO. */
  function TakeSamples(fifo: seq<Frame>, n: nat): (r: (seq<int>, seq<Frame>))
    requires n <= Total(fifo)
    decreases |fifo|
  {
    if n == 0 then ([], fifo)
    else
      var f := fifo[0];
      if n < |f.samples| then (f.samples[..n], [Trim(f, n)] + fifo[1..])
      else
        var (rest, left) := TakeSamples(fifo[1..], n - |f.samples|);
        (f.samples + rest, left)
  }

  datatype Outcome = Got(idx: nat, frame: Frame) | Again | Eof

  /** How many samples the next output frame takes; 0 means a whole queued frame. */
  function WantSamples(st: Stream): int {
    if st.finished && st.samplesQueued < st.frameSamples then st.samplesQueued else st.frameSamples
  }

  predicate CanOutput(st: Stream) {
    st.fifo != [] && (st.frameSamples <= st.samplesQueued || st.finished)
  }

  ghost predicate Releasable(q: Queue, i: int)
    requires InBounds(q) && 0 <= i < |q.streams|
  {
    var st := q.streams[i];
    && CanOutput(st)
    && 0 <= WantSamples(st)
    && var ts := FrameEnd(st.fifo[0], WantSamples(st));
       || ts == NOPTS || !q.haveLimiting
       || (q.head >= 0 && Instant(ts, st.tb) <= HeadTime(q.streams[q.head]))
  }

  predicate Countable(st: Stream) {
    st.samplesQueued == Total(st.fifo)
  }

  function TakeOutput(st: Stream): (r: (Frame, Stream))
    requires st.fifo != [] && Countable(st)
    requires WantSamples(st) <= st.samplesQueued
  {
    var n := WantSamples(st);
    if n == 0 then
      (st.fifo[0], st.(fifo := st.fifo[1..], samplesQueued := st.samplesQueued - |st.fifo[0].samples|))
    else
      var f := st.fifo[0];
      var (samples, left) := TakeSamples(st.fifo, n);
      (f.(samples := samples, duration := SampleTicks(f, n)), st.(fifo := left, samplesQueued := st.samplesQueued - n))
  }

  predicate AllCountable(q: Queue) {
    forall k :: 0 <= k < |q.streams| ==> Countable(q.streams[k])
  }

  ghost function ReceiveFor(q: Queue, i: int): (r: (Queue, Outcome))
    requires InBounds(q) && AllCountable(q) && 0 <= i < |q.streams|
    ensures InBounds(r.0) && |r.0.streams| == |q.streams|
    ensures !r.1.Got? ==> r.0 == q
    ensures r.1.Got? ==> r.1.idx == i
  {
    var st := q.streams[i];
    if Releasable(q, i) then
      var (frame, st') := TakeOutput(st);
      (SetStream(q, i, st'), Got(i, frame))
    else if q.finished || (st.finished && st.fifo == []) then (q, Eof)
    else (q, Again)
  }

  /** The loop of receive_internal from stream k on, with `eofs` streams at EOF so far. */
  ghost function ReceiveFrom(q: Queue, k: nat, eofs: nat): (r: (Queue, Outcome))
    requires InBounds(q) && AllCountable(q) && k <= |q.streams|
    ensures InBounds(r.0) && |r.0.streams| == |q.streams|
    ensures !r.1.Got? ==> r.0 == q
    ensures r.1.Got? ==> r.1.idx < |q.streams| && Releasable(q, r.1.idx) && r == ReceiveFor(q, r.1.idx)
    decreases |q.streams| - k
  {
    if k == |q.streams| then (q, if eofs == |q.streams| then Eof else Again)
    else
      var r := ReceiveFor(q, k);
      if r.1.Got? then r else ReceiveFrom(q, k + 1, if r.1.Eof? then eofs + 1 else eofs)
  }

  /** receive_internal; a negative index asks for any stream. */
  ghost function ReceiveInternal(q: Queue, idx: int): (r: (Queue, Outcome))
    requires InBounds(q) && AllCountable(q) && idx < |q.streams|
    ensures InBounds(r.0) && |r.0.streams| == |q.streams|
    ensures !r.1.Got? ==> r.0 == q
    ensures r.1.Got? ==> r.1.idx < |q.streams| && Releasable(q, r.1.idx) && r == ReceiveFor(q, r.1.idx)
    ensures r.1.Got? && idx >= 0 ==> r.1.idx == idx
  {
    if idx >= 0 then ReceiveFor(q, idx) else ReceiveFrom(q, 0, 0)
  }

  // ---- heartbeats ----

  /** The first loop of overflow_heartbeat: the stream most ahead, or -1. */
  ghost function MostAhead(streams: seq<Stream>, best: int, k: nat): (r: int)
    requires -1 <= best < |streams| && k <= |streams|
    ensures -1 <= r < |streams|
    ensures (best >= 0 ==> HasTs(streams[best])) ==> r >= 0 ==> HasTs(streams[r])
    decreases |streams| - k
  {
    if k == |streams| then best
    else if HasTs(streams[k]) && (best < 0 || HeadTime(streams[best]) < HeadTime(streams[k]))
    then MostAhead(streams, k, k + 1)
    else MostAhead(streams, best, k + 1)
  }

  function TailTs(fifo: seq<Frame>): int {
    if fifo == [] then NOPTS
    else if FrameEnd(fifo[0], 0) != NOPTS then FrameEnd(fifo[0], 0)
    else TailTs(fifo[1..])
  }

  predicate Overflows(st: Stream, bufSize: int) {
    var tail := TailTs(st.fifo);
    && tail != NOPTS && tail < st.headTs
    && Rescale(st.headTs - tail, st.tb, MICROSECONDS) >= bufSize
  }

  ghost predicate Lags(q: Queue, s: int, ts: int, k: int)
    requires 0 <= s < |q.streams| && 0 <= k < |q.streams|
  {
    var st := q.streams[k];
    && k != s && !st.finished
    && (HasTs(st) ==> HeadTime(st) < Instant(ts, q.streams[s].tb))
  }

  function BeatTs(st: Stream, ts: int, tb: Rational): int {
    var r := Rescale(ts, tb, st.tb);
    if HasTs(st) && r < st.headTs + 1 then st.headTs + 1 else r
  }

  /** The last loop of overflow_heartbeat: a fake timestamp for every lagging stream. */
  ghost function Beat(q: Queue, s: int, ts: int, k: nat): (r: Queue)
    requires InBounds(q) && 0 <= s < |q.streams| && k <= |q.streams|
    ensures InBounds(r) && OnlyHeads(q, r)
    decreases |q.streams| - k
  {
    if k == |q.streams| then q
    else if Lags(q, s, ts, k)
    then Beat(UpdateTs(q, k, BeatTs(q.streams[k], ts, q.streams[s].tb)), s, ts, k + 1)
    else Beat(q, s, ts, k + 1)
  }

  ghost function Checked(q: Queue, idx: int): (s: int)
    requires idx < |q.streams|
    ensures -1 <= s < |q.streams|
  {
    if idx >= 0 then idx else MostAhead(q.streams, -1, 0)
  }

  ghost function Heartbeat(q: Queue, idx: int): (r: (Queue, bool))
    requires InBounds(q) && idx < |q.streams|
    ensures InBounds(r.0) && OnlyHeads(q, r.0)
    ensures !r.1 ==> r.0 == q
  {
    var s := Checked(q, idx);
    if s < 0 || !Overflows(q.streams[s], q.bufSize) then (q, false)
    else (Beat(q, s, TailTs(q.streams[s].fifo) + 1, 0), true)
  }

  ghost function Receive(q: Queue, idx: int): (r: (Queue, Outcome))
    requires InBounds(q) && AllCountable(q) && idx < |q.streams|
    ensures InBounds(r.0) && |r.0.streams| == |q.streams|
  {
    var first := ReceiveInternal(q, idx);
    if first.1.Again? && Heartbeat(q, idx).1
    then ReceiveInternal(Heartbeat(q, idx).0, idx)
    else first
  }
}
