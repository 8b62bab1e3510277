/** Runs that break a promise of the sync queue. */
module SyncExamples {
  import opened Arithmetic
  import opened Time
  import opened SyncModel
  import opened SyncHeads
  import opened SyncSamples
  import opened SyncRuns
  import opened SyncDelivery

  // ---- a change of time base (fftools/sync_queue.c:151-169) ----

  const SECONDS := Rational(1, 1)
  const NTSC := Rational(1001, 30000)

  function Early(): Frame {
    Video(0, 16, SECONDS)
  }

  function Late(): Frame {
    Video(16, 1, SECONDS)
  }

  function First(): Frame {
    Video(0, 1, NTSC)
  }

  /** Stream 0 has sent up to 17 seconds, limiting stream 1 nothing. */
  function Waiting(fifo: seq<Frame>, headTs: int): Queue {
    Queue([NewStream(false).(fifo := fifo, headTs := headTs, framesSent := |fifo|), NewStream(true)],
          false, -1, -1, 1, true)
  }

  /** A heartbeat has put the head of stream 1 at 17 seconds. */
  function Beaten(fifo: seq<Frame>): Queue {
    Queue([NewStream(false).(fifo := fifo, headTs := 17, framesSent := 2), NewStream(true).(headTs := 17)],
          false, 1, -1, 1, true)
  }

  lemma WaitingBasic(fifo: seq<Frame>, headTs: int)
    requires forall k :: 0 <= k < |fifo| ==> fifo[k] == Early() || fifo[k] == Late()
    requires |fifo| <= 2
    ensures Basic(Waiting(fifo, headTs)) && AllCountable(Waiting(fifo, headTs))
    ensures Basic(Beaten(fifo)) && AllCountable(Beaten(fifo))
  {
    assert Waiting(fifo, headTs).streams[1].limiting && Beaten(fifo).streams[1].limiting;
    assert Total(fifo) == 0 by {
      if |fifo| == 2 {
        assert Total(fifo[1..]) == 0;
      }
    }
  }

  lemma SendEarly()
    ensures NewQueue([false, true], 1) == Waiting([], NOPTS)
    ensures Basic(Waiting([], NOPTS)) && Legal(Waiting([], NOPTS), Send(0, Early()))
    ensures Step(Waiting([], NOPTS), Send(0, Early())) == (Waiting([Early()], 16), Accepted(0, Early()))
  {
    WaitingBasic([], NOPTS);
    assert [false, true][1];
    assert NewQueue([false, true], 1).streams == Waiting([], NOPTS).streams;
    hide Instant;
    assert [] + [Early()] == [Early()];
    assert SendFrame(Waiting([], NOPTS), 0, Early()).streams == Waiting([Early()], 16).streams;
  }

  lemma SendLate()
    ensures Basic(Waiting([Early()], 16)) && Legal(Waiting([Early()], 16), Send(0, Late()))
    ensures Step(Waiting([Early()], 16), Send(0, Late())) == (Waiting([Early(), Late()], 17), Accepted(0, Late()))
  {
    WaitingBasic([Early()], 16);
    hide Instant;
    assert [Early()] + [Late()] == [Early(), Late()];
    assert SendFrame(Waiting([Early()], 16), 0, Late()).streams == Waiting([Early(), Late()], 17).streams;
  }

  lemma BeatSecond()
    ensures var q := Waiting([Early(), Late()], 17);
            InBounds(q) && Heartbeat(q, 0) == (Beaten([Early(), Late()]), true)
  {
    WaitingBasic([Early(), Late()], 17);
    var q := Waiting([Early(), Late()], 17);
    RescaleSame(17, SECONDS);
    assert TailTs(q.streams[0].fifo) == 16;
    assert Rescale(1, SECONDS, MICROSECONDS) == 1_000_000;
    hide Instant, Rescale;
    assert !Lags(q, 0, 17, 0) && Lags(q, 0, 17, 1);
    var q1 := SetHead(q, 1, 17);
    assert ScanHead(q1.streams, 1, 2) == 1;
    assert ScanHead(q1.streams, 1, 1) == 1;
    assert ScanHead(q1.streams, 1, 0) == 1;
    assert FirstLimiting(q1.streams, 1) == 1;
    assert UpdateTs(q, 1, 17) == Beaten([Early(), Late()]);
    assert Beat(UpdateTs(q, 1, 17), 0, 17, 2) == UpdateTs(q, 1, 17);
    assert Beat(q, 0, 17, 1) == UpdateTs(q, 1, 17);
  }

  lemma NotYet()
    ensures var q := Waiting([Early(), Late()], 17);
            InBounds(q) && AllCountable(q) && ReceiveInternal(q, 0) == (q, Again)
  {
    WaitingBasic([Early(), Late()], 17);
    hide Instant, Rescale;
  }

  lemma NowEarly()
    ensures var q := Beaten([Early(), Late()]);
            InBounds(q) && AllCountable(q) && ReceiveInternal(q, 0) == (Beaten([Late()]), Got(0, Early()))
  {
    WaitingBasic([Early(), Late()], 17);
    InstantMonotone(16, 17, SECONDS);
    hide Instant, Rescale;
    var q := Beaten([Early(), Late()]);
    assert Releasable(q, 0);
    assert ReceiveFor(q, 0).0.streams == Beaten([Late()]).streams;
  }

  lemma ReceiveEarly()
    ensures Basic(Waiting([Early(), Late()], 17))
    ensures Step(Waiting([Early(), Late()], 17), Recv(0)) == (Beaten([Late()]), Released(0, Early()))
  {
    WaitingBasic([Early(), Late()], 17);
    BeatSecond();
    NotYet();
    NowEarly();
    hide Waiting, Beaten, ReceiveInternal, Heartbeat, Basic, InBounds, AllCountable;
  }

  lemma ReceiveLate()
    ensures Basic(Beaten([Late()])) && Step(Beaten([Late()]), Recv(0)) == (Beaten([]), Released(0, Late()))
  {
    WaitingBasic([Late()], 17);
    hide Instant, Heartbeat, Rescale;
    assert Releasable(Beaten([Late()]), 0);
    assert ReceiveFor(Beaten([Late()]), 0).0.streams == Beaten([]).streams;
    assert ReceiveFor(Beaten([Late()]), 0) == (Beaten([]), Got(0, Late()));
  }

  /** The head of stream 1 in the end: 509 ticks, before 17 seconds. */
  function MovedBack(): Queue {
    var st1 := NewStream(true).(tb := NTSC, fifo := [First()], headTs := 509, framesSent := 1);
    Beaten([]).(streams := [Beaten([]).streams[0], st1])
  }

  lemma SendFirst()
    ensures Basic(Beaten([])) && Legal(Beaten([]), Send(1, First()))
    ensures Step(Beaten([]), Send(1, First())) == (MovedBack(), Accepted(1, First()))
  {
    WaitingBasic([], 17);
    assert Rescale(17, SECONDS, NTSC) == 509;
    hide Instant, Rescale, HeadUpdate;
    var q1 := SetStream(Beaten([]), 1, Enqueue(Beaten([]).streams[1], First()));
    assert UpdateTs(q1, 1, 1) == q1;
    assert [] + [First()] == [First()];
    assert SendFrame(Beaten([]), 1, First()).streams == MovedBack().streams;
  }

  /** The second receive and the frame in another base. */
  function LastOps(): seq<Op> {
    [Recv(0)] + ([Send(1, First())] + [])
  }

  function MovesBackOps(): seq<Op> {
    [Send(0, Early())] + ([Send(0, Late())] + ([Recv(0)] + LastOps()))
  }

  lemma LastSteps()
    ensures Basic(Beaten([Late()])) && LegalRun(Beaten([Late()]), LastOps())
    ensures Run(Beaten([Late()]), LastOps()) == (MovedBack(), [Released(0, Late())] + ([Accepted(1, First())] + []))
  {
    ReceiveLate();
    SendFirst();
    StepBasic(Beaten([]), Send(1, First()));
    hide Step, Beaten, MovedBack, Basic, Run, LegalRun;
    NoOps(MovedBack());
    Prepend(Beaten([]), Send(1, First()), MovedBack(), Accepted(1, First()), []);
    Prepend(Beaten([Late()]), Recv(0), Beaten([]), Released(0, Late()), [Send(1, First())] + []);
  }

  lemma AllSteps()
    ensures Basic(NewQueue([false, true], 1)) && LegalRun(NewQueue([false, true], 1), MovesBackOps())
    ensures var (r, es) := Run(NewQueue([false, true], 1), MovesBackOps());
            r == MovedBack() && |es| == 5 && es[3] == Released(0, Late())
  {
    SendEarly();
    SendLate();
    ReceiveEarly();
    LastSteps();
    hide Step, Waiting, Beaten, MovedBack, Basic, Run, LegalRun, LastOps;
    Prepend(Waiting([Early(), Late()], 17), Recv(0), Beaten([Late()]), Released(0, Early()), LastOps());
    Prepend(Waiting([Early()], 16), Send(0, Late()), Waiting([Early(), Late()], 17), Accepted(0, Late()), [Recv(0)] + LastOps());
    Prepend(Waiting([], NOPTS), Send(0, Early()), Waiting([Early()], 16), Accepted(0, Early()),
            [Send(0, Late())] + ([Recv(0)] + LastOps()));
  }

  /** A stream given a fake head in the default base, whose first frame comes in a base that rounds
      it: its head moves back behind a frame that has been released. */
  lemma RoundedBaseMovesBack()
    ensures Basic(NewQueue([false, true], 1)) && LegalRun(NewQueue([false, true], 1), MovesBackOps())
    ensures var (r, es) := Run(NewQueue([false, true], 1), MovesBackOps());
            && es[3] == Released(0, Late()) && !NotOvertaking(es[3], r)
            && r.streams[1].limiting && HeadTime(r.streams[1]) < Instant(FrameEnd(Late(), 0), SECONDS)
  {
    AllSteps();
    MovedBackOvertaken();
    hide NotOvertaking, Run, LegalRun, NewQueue, Instant, MovedBack, MovesBackOps;
  }

  lemma MovedBackOvertaken()
    ensures var r := MovedBack();
            && r.streams[1].limiting && HeadTime(r.streams[1]) < Instant(FrameEnd(Late(), 0), SECONDS)
            && !NotOvertaking(Released(0, Late()), r)
  {
    CompareIsOrder(509, NTSC, 17, SECONDS);
    hide Instant;
  }

  // ---- the frame limit with a frame size (fftools/sync_queue.c:399-404) ----

  const RATE: Pos := 48000

  function Silence(n: nat): seq<int> {
    seq(n, _ => 0)
  }

  /** `length` samples of silence from sample `start` on. */
  function Quietly(start: nat, length: nat): Frame {
    Frame(start, length, Rational(1, RATE), RATE, Silence(length), 0)
  }

  /** Stream 0, limited to one frame of 100 samples, before and after a frame of 250 samples. */
  function Limited(max: nat, size: nat): Queue {
    Queue([NewStream(true).(framesMax := max, frameSamples := size)], false, -1, -1, 0, true)
  }

  function Over(fifo: seq<Frame>, queued: nat): Queue {
    Queue([NewStream(true).(
             fifo := fifo, tb := Rational(1, RATE), samplesQueued := queued, headTs := 250, finished := true,
             framesSent := 2, samplesSent := 250, framesMax := 1, frameSamples := 100)],
          true, 0, 0, 0, true)
  }

  lemma QuietTicks(start: nat, length: nat, n: nat)
    ensures SampleTicks(Quietly(start, length), n) == n
  {
    RescaleSame(n, Rational(1, RATE));
  }

  lemma LimitedBasic(max: nat, size: nat)
    ensures Basic(Limited(max, size))
  {
    assert Limited(max, size).streams[0].limiting;
  }

  lemma OverBasic(start: nat, length: nat)
    ensures Basic(Over([Quietly(start, length)], length)) && AllCountable(Over([Quietly(start, length)], length))
    ensures Basic(Over([], 0)) && AllCountable(Over([], 0))
  {
    QuietTicks(start, length, length);
    hide Rescale;
    assert Over([Quietly(start, length)], length).streams[0].limiting && Over([], 0).streams[0].limiting;
    assert Total([]) == 0;
    assert Total([Quietly(start, length)]) == length + Total([]);
  }

  lemma SetSize()
    ensures NewQueue([true], 0) == Limited(0xffff_ffff_ffff_ffff, 0)
    ensures Basic(Limited(0xffff_ffff_ffff_ffff, 0)) && Basic(Limited(0xffff_ffff_ffff_ffff, 100))
    ensures Step(Limited(0xffff_ffff_ffff_ffff, 0), FrameSize(0, 100)) == (Limited(0xffff_ffff_ffff_ffff, 100), Quiet)
    ensures Step(Limited(0xffff_ffff_ffff_ffff, 100), Limit(0, 1)) == (Limited(1, 100), Quiet)
  {
    LimitedBasic(0xffff_ffff_ffff_ffff, 0);
    LimitedBasic(0xffff_ffff_ffff_ffff, 100);
    assert [true][0];
    assert NewQueue([true], 0).streams == Limited(0xffff_ffff_ffff_ffff, 0).streams;
    hide Instant;
    assert Step(Limited(0xffff_ffff_ffff_ffff, 0), FrameSize(0, 100)).0.streams == Limited(0xffff_ffff_ffff_ffff, 100).streams;
    assert Step(Limited(0xffff_ffff_ffff_ffff, 100), Limit(0, 1)).0.streams == Limited(1, 100).streams;
  }

  lemma SendMany()
    ensures Basic(Limited(1, 100)) && Legal(Limited(1, 100), Send(0, Quietly(0, 250)))
    ensures Step(Limited(1, 100), Send(0, Quietly(0, 250))) == (Over([Quietly(0, 250)], 250), Accepted(0, Quietly(0, 250)))
  {
    LimitedBasic(1, 100);
    AcceptMany();
    FinishMany();
    hide Instant, Accept, SampleTicks, FinishStream, Basic, Quietly;
  }

  lemma FinishMany()
    ensures InBounds(Unfinished()) && FinishStream(Unfinished(), 0) == Over([Quietly(0, 250)], 250)
  {
    hide Instant, Quietly;
    assert Unfinished().streams[0].limiting;
    assert FinishStream(Unfinished(), 0).streams == Over([Quietly(0, 250)], 250).streams;
  }

  /** The stream has taken the frame and is still to be finished. */
  function Unfinished(): Queue {
    var over := Over([Quietly(0, 250)], 250);
    over.(streams := [over.streams[0].(finished := false)], finished := false, headFinished := -1)
  }

  lemma AcceptMany()
    ensures InBounds(Limited(1, 100)) && InBounds(Unfinished())
    ensures Accept(Limited(1, 100), 0, Quietly(0, 250)) == Unfinished()
  {
    LimitedBasic(1, 100);
    OverBasic(0, 250);
    QuietTicks(0, 250, 250);
    hide Rescale, Instant;
    var q, f := Limited(1, 100), Quietly(0, 250);
    assert Unfinished().streams[0].limiting;
    assert Normalise(f) == f && FrameEnd(f, 0) == 250;
    assert [] + [f] == [f];
    var q1 := SetStream(q, 0, Enqueue(q.streams[0], f));
    var q2 := SetHead(q1, 0, 250);
    assert FirstLimiting(q2.streams, 0) == 0;
    assert ScanHead(q2.streams, 0, 1) == 0;
    assert ScanHead(q2.streams, 0, 0) == 0;
    assert UpdateTs(q1, 0, 250) == q2.(head := 0);
    assert Accept(q, 0, f).streams == Unfinished().streams;
  }

  /** One receive takes 100 samples, or the rest. */
  lemma TakeSome(start: nat, length: nat)
    requires start + length == 250 && length > 0
    ensures var n := if length < 100 then length else 100;
            var rest := if length <= 100 then [] else [Quietly(start + 100, length - 100)];
            && Basic(Over([Quietly(start, length)], length))
            && Step(Over([Quietly(start, length)], length), Recv(0)) == (Over(rest, length - n), Released(0, Quietly(start, n)))
  {
    OverBasic(start, length);
    var q, f := Over([Quietly(start, length)], length), Quietly(start, length);
    var n := if length < 100 then length else 100;
    QuietTicks(start, length, n);
    QuietTicks(start, length, length - n);
    InstantMonotone(start + n, 250, Rational(1, RATE));
    hide Rescale, Instant;
    assert WantSamples(q.streams[0]) == n;
    assert FrameEnd(f, n) == start + n;
    assert Releasable(q, 0);
    assert Silence(length)[..n] == Silence(n) && Silence(length)[n..] == Silence(length - n);
    assert Silence(length) + [] == Silence(length);
    assert TakeSamples([], 0) == ([], []) && [f][1..] == [];
    if n < length {
      assert Trim(f, n) == Quietly(start + n, length - n);
      assert [Trim(f, n)] + [f][1..] == [Quietly(start + n, length - n)];
    } else {
      assert TakeSamples([f][1..], 0) == ([], []);
    }
    assert TakeSamples([f], n) == (Silence(n), if n == length then [] else [Quietly(start + n, length - n)]);
    assert ReceiveFor(q, 0).0.streams == Over(if n == length then [] else [Quietly(start + n, length - n)], length - n).streams;
  }

  function Receives(n: nat): seq<Op> {
    if n == 0 then [] else [Recv(0)] + Receives(n - 1)
  }

  function OvershootOps(): seq<Op> {
    [FrameSize(0, 100)] + ([Limit(0, 1)] + ([Send(0, Quietly(0, 250))] + Receives(3)))
  }

  /** The frames that come out of `length` samples from `start` on. */
  function Pieces(start: nat, length: nat): seq<Event>
    decreases length
  {
    if length == 0 then []
    else if length <= 100 then [Released(0, Quietly(start, length))]
    else [Released(0, Quietly(start, 100))] + Pieces(start + 100, length - 100)
  }

  /** One receive and those after it. */
  lemma ReceiveMore(start: nat, length: nat, n: nat, left: seq<Frame>, rest: nat, frame: Frame)
    requires Basic(Over([Quietly(start, length)], length)) && Legal(Over([Quietly(start, length)], length), Recv(0))
    requires Step(Over([Quietly(start, length)], length), Recv(0)) == (Over(left, rest), Released(0, frame))
    requires Basic(Over(left, rest)) && LegalRun(Over(left, rest), Receives(n))
    ensures LegalRun(Over([Quietly(start, length)], length), Receives(n + 1))
    ensures Run(Over([Quietly(start, length)], length), Receives(n + 1))
         == (Run(Over(left, rest), Receives(n)).0, [Released(0, frame)] + Run(Over(left, rest), Receives(n)).1)
  {
    hide Step, Over, Basic, Run, LegalRun, Quietly, Legal;
    Prepend(Over([Quietly(start, length)], length), Recv(0), Over(left, rest), Released(0, frame), Receives(n));
  }

  lemma {:induction false} OverReceives(start: nat, length: nat, n: nat)
    requires start + length == 250 && 100 * n < length + 100 <= 100 * n + 100 && n > 0
    ensures Basic(Over([Quietly(start, length)], length))
    ensures LegalRun(Over([Quietly(start, length)], length), Receives(n))
    ensures Run(Over([Quietly(start, length)], length), Receives(n)) == (Over([], 0), Pieces(start, length))
    decreases n
  {
    TakeSome(start, length);
    OverBasic(start, length);
    LegalReceive([Quietly(start, length)], length);
    hide Step, Over, Basic, Run, LegalRun, Quietly, Legal, AllCountable;
    if n == 1 {
      NoOps(Over([], 0));
      assert Receives(0) == [];
      ReceiveMore(start, length, 0, [], 0, Quietly(start, length));
      assert [Released(0, Quietly(start, length))] + [] == [Released(0, Quietly(start, length))];
    } else {
      OverReceives(start + 100, length - 100, n - 1);
      ReceiveMore(start, length, n - 1, [Quietly(start + 100, length - 100)], length - 100, Quietly(start, 100));
    }
  }

  lemma ThreePieces()
    ensures Pieces(0, 250) == [Released(0, Quietly(0, 100)), Released(0, Quietly(100, 100)), Released(0, Quietly(200, 50))]
  {
    hide Quietly;
    assert Pieces(200, 50) == [Released(0, Quietly(200, 50))];
    assert Pieces(100, 150) == [Released(0, Quietly(100, 100))] + Pieces(200, 50);
    assert Pieces(0, 250) == [Released(0, Quietly(0, 100))] + Pieces(100, 150);
  }

  lemma LegalReceive(fifo: seq<Frame>, queued: nat)
    ensures Legal(Over(fifo, queued), Recv(0))
  {
  }

  lemma LegalSettings(max: nat, size: nat)
    ensures Legal(Limited(max, size), FrameSize(0, 100)) && Legal(Limited(max, size), Limit(0, 1))
  {
  }

  /** A limit of one output frame, and three come out. */
  lemma LimitOvershoots()
    ensures Basic(NewQueue([true], 0)) && LegalRun(NewQueue([true], 0), OvershootOps())
    ensures Run(NewQueue([true], 0), OvershootOps()).1
         == [Quiet] + ([Quiet] + ([Accepted(0, Quietly(0, 250))] + Pieces(0, 250)))
    ensures Pieces(0, 250) == [Released(0, Quietly(0, 100)), Released(0, Quietly(100, 100)), Released(0, Quietly(200, 50))]
  {
    SetSize();
    SendMany();
    ThreePieces();
    OverReceives(0, 250, 3);
    LegalSettings(0xffff_ffff_ffff_ffff, 0);
    LegalSettings(0xffff_ffff_ffff_ffff, 100);
    hide Step, Over, Limited, Basic, Run, LegalRun, Quietly, Legal, Receives, Pieces;
    Prepend(Limited(1, 100), Send(0, Quietly(0, 250)), Over([Quietly(0, 250)], 250), Accepted(0, Quietly(0, 250)), Receives(3));
    Prepend(Limited(0xffff_ffff_ffff_ffff, 100), Limit(0, 1), Limited(1, 100), Quiet, [Send(0, Quietly(0, 250))] + Receives(3));
    Prepend(Limited(0xffff_ffff_ffff_ffff, 0), FrameSize(0, 100), Limited(0xffff_ffff_ffff_ffff, 100), Quiet,
            [Limit(0, 1)] + ([Send(0, Quietly(0, 250))] + Receives(3)));
  }

  // ---- a new frame size after the end (fftools/sync_queue.c:661-673) ----

  /** Both streams have finished, at 10 and at 5 samples; 10 samples of the first are still queued. */
  function Leftover(size: nat): Queue {
    var st0 := NewStream(true).(
      fifo := [Quietly(0, 10)], tb := Rational(1, RATE), samplesQueued := 10, headTs := 10, finished := true,
      framesSent := 1, samplesSent := 10, frameSamples := size);
    var st1 := NewStream(true).(tb := Rational(1, RATE), headTs := 5, finished := true, framesSent := 1);
    Queue([st0, st1], true, 1, 1, 0, true)
  }

  lemma LeftoverInv(size: nat)
    ensures Inv(Leftover(size)) && AllCountable(Leftover(size))
  {
    QuietTicks(0, 10, 10);
    InstantMonotone(5, 10, Rational(1, RATE));
    hide Rescale, Instant;
    var q := Leftover(size);
    assert q.streams[0].limiting;
    assert Total([]) == 0 && Total([Quietly(0, 10)]) == 10 + Total([]);
    assert StreamOk(q.streams[0]) && StreamOk(q.streams[1]);
  }

  /** The last three steps: the end, a smaller frame size, and a frame again. */
  lemma LeftoverSteps()
    ensures Basic(Leftover(10)) && Basic(Leftover(5))
    ensures Step(Leftover(10), Recv(0)) == (Leftover(10), AtEof(0))
    ensures Step(Leftover(10), FrameSize(0, 5)) == (Leftover(5), Quiet)
    ensures Step(Leftover(5), Recv(0)).1 == Released(0, Quietly(0, 5))
    ensures Revives(Leftover(10), 0, 5)
  {
    LeftoverInv(10);
    LeftoverInv(5);
    QuietTicks(0, 10, 10);
    QuietTicks(0, 10, 5);
    InstantMonotone(5, 10, Rational(1, RATE));
    hide Rescale, Instant;
    var f := Quietly(0, 10);
    assert FrameEnd(f, 10) == 10 && FrameEnd(f, 5) == 5;
    assert !Releasable(Leftover(10), 0) && Releasable(Leftover(5), 0);
    assert Step(Leftover(10), FrameSize(0, 5)).0.streams == Leftover(5).streams;
    assert Silence(10)[..5] == Silence(5);
  }

  function FiveTicks(): Frame {
    Video(0, 5, Rational(1, RATE))
  }

  /** The way there: stream 0 has its size, then its samples; stream 1 a frame up to 5. */
  function Sized(): Stream {
    NewStream(true).(frameSamples := 10)
  }

  function Sent(): Stream {
    Sized().(fifo := [Quietly(0, 10)], tb := Rational(1, RATE), samplesQueued := 10, headTs := 10,
             framesSent := 1, samplesSent := 10)
  }

  function Short(fifo: seq<Frame>): Stream {
    NewStream(true).(fifo := fifo, tb := Rational(1, RATE), headTs := 5, framesSent := 1)
  }

  function Pair(st0: Stream, st1: Stream, head: int): Queue {
    Queue([st0, st1], false, head, -1, 0, true)
  }

  lemma PairBasic(st0: Stream, st1: Stream, head: int)
    requires st0.limiting && -1 <= head < 2 && StreamOk(st0) && StreamOk(st1)
    ensures Basic(Pair(st0, st1, head)) && AllCountable(Pair(st0, st1, head))
  {
    assert Pair(st0, st1, head).streams[0].limiting;
  }

  lemma StreamsFine()
    ensures StreamOk(NewStream(true)) && StreamOk(Sized()) && StreamOk(Sent())
    ensures StreamOk(Short([])) && StreamOk(Short([FiveTicks()]))
  {
    QuietTicks(0, 10, 10);
    hide Rescale;
    assert Total([]) == 0 && Total([Quietly(0, 10)]) == 10 + Total([]) && Total([FiveTicks()]) == Total([]);
  }

  lemma SizeStep()
    ensures NewQueue([true, true], 0) == Pair(NewStream(true), NewStream(true), -1)
    ensures Basic(Pair(NewStream(true), NewStream(true), -1))
    ensures Step(Pair(NewStream(true), NewStream(true), -1), FrameSize(0, 10)) == (Pair(Sized(), NewStream(true), -1), Quiet)
  {
    StreamsFine();
    PairBasic(NewStream(true), NewStream(true), -1);
    assert [true, true][0];
    var q := Pair(NewStream(true), NewStream(true), -1);
    assert NewQueue([true, true], 0).streams == q.streams;
    assert Step(q, FrameSize(0, 10)).0.streams == Pair(Sized(), NewStream(true), -1).streams;
  }

  lemma SamplesStep()
    ensures var q := Pair(Sized(), NewStream(true), -1);
            && Basic(q) && Legal(q, Send(0, Quietly(0, 10)))
            && Step(q, Send(0, Quietly(0, 10))) == (Pair(Sent(), NewStream(true), -1), Accepted(0, Quietly(0, 10)))
  {
    StreamsFine();
    PairBasic(Sized(), NewStream(true), -1);
    QuietTicks(0, 10, 10);
    hide Rescale, Instant;
    var q, f := Pair(Sized(), NewStream(true), -1), Quietly(0, 10);
    assert Normalise(f) == f && FrameEnd(f, 0) == 10;
    assert [] + [f] == [f];
    var q1 := SetStream(q, 0, Enqueue(Sized(), f));
    assert !AllTimed(SetHead(q1, 0, 10).streams) by { assert !HasTs(q1.streams[1]); }
    assert UpdateTs(q1, 0, 10) == SetHead(q1, 0, 10);
    assert SendFrame(q, 0, f).streams == Pair(Sent(), NewStream(true), -1).streams;
  }

  lemma ShortStep()
    ensures var q := Pair(Sent(), NewStream(true), -1);
            && Basic(q) && Legal(q, Send(1, FiveTicks()))
            && Step(q, Send(1, FiveTicks())) == (Pair(Sent(), Short([FiveTicks()]), 1), Accepted(1, FiveTicks()))
  {
    StreamsFine();
    PairBasic(Sent(), NewStream(true), -1);
    InstantMonotone(5, 10, Rational(1, RATE));
    hide Rescale, Instant, SampleTicks;
    var q, f := Pair(Sent(), NewStream(true), -1), FiveTicks();
    assert [] + [f] == [f];
    var q1 := SetStream(q, 1, Enqueue(NewStream(true), f));
    var q2 := SetHead(q1, 1, 5);
    assert FirstLimiting(q2.streams, 0) == 0;
    assert ScanHead(q2.streams, 1, 2) == 1;
    assert ScanHead(q2.streams, 0, 1) == 1;
    assert ScanHead(q2.streams, 0, 0) == 1;
    assert UpdateTs(q1, 1, 5) == q2.(head := 1);
    assert SendFrame(q, 1, f).streams == Pair(Sent(), Short([f]), 1).streams;
  }

  lemma ShortOutStep()
    ensures var q := Pair(Sent(), Short([FiveTicks()]), 1);
            && Basic(q) && Legal(q, Recv(1))
            && Step(q, Recv(1)) == (Pair(Sent(), Short([]), 1), Released(1, FiveTicks()))
  {
    StreamsFine();
    PairBasic(Sent(), Short([FiveTicks()]), 1);
    hide Rescale, Instant, SampleTicks;
    var q := Pair(Sent(), Short([FiveTicks()]), 1);
    assert Releasable(q, 1);
    assert ReceiveFor(q, 1).0.streams == Pair(Sent(), Short([]), 1).streams;
  }

  lemma FinishStep()
    ensures var q := Pair(Sent(), Short([]), 1);
            Basic(q) && Step(q, Finish(1)) == (Leftover(10), Quiet)
  {
    StreamsFine();
    PairBasic(Sent(), Short([]), 1);
    InstantMonotone(5, 10, Rational(1, RATE));
    hide Rescale, Instant, SampleTicks;
    var q := Pair(Sent(), Short([]), 1);
    assert FinishStream(q, 1).streams == Leftover(10).streams;
  }

  function EndOps(): seq<Op> {
    [Recv(0)] + ([FrameSize(0, 5)] + ([Recv(0)] + []))
  }

  function EndEvents(): seq<Event> {
    [AtEof(0)] + ([Quiet] + ([Released(0, Quietly(0, 5))] + []))
  }

  lemma EndSteps()
    ensures Basic(Leftover(10)) && LegalRun(Leftover(10), EndOps()) && Run(Leftover(10), EndOps()).1 == EndEvents()
  {
    LeftoverSteps();
    LegalLeftover(10);
    LegalLeftover(5);
    var r := Step(Leftover(5), Recv(0)).0;
    StepBasic(Leftover(5), Recv(0));
    hide Step, Leftover, Basic, Run, LegalRun, Quietly, Legal;
    NoOps(r);
    Prepend(Leftover(5), Recv(0), r, Released(0, Quietly(0, 5)), []);
    Prepend(Leftover(10), FrameSize(0, 5), Leftover(5), Quiet, [Recv(0)] + []);
    Prepend(Leftover(10), Recv(0), Leftover(10), AtEof(0), [FrameSize(0, 5)] + ([Recv(0)] + []));
  }

  lemma LegalLeftover(size: nat)
    ensures Legal(Leftover(size), Recv(0)) && Legal(Leftover(size), FrameSize(0, 5))
  {
  }

  lemma LegalPair(st0: Stream, st1: Stream, head: int)
    ensures Legal(Pair(st0, st1, head), FrameSize(0, 10)) && Legal(Pair(st0, st1, head), Finish(1))
  {
  }

  /** Frame size 10, 10 samples, a frame of stream 1 up to 5 and out, the end of stream 1. */
  function ResizeOps(): seq<Op> {
    [FrameSize(0, 10)] + ([Send(0, Quietly(0, 10))] + ([Send(1, FiveTicks())] + ([Recv(1)] + ([Finish(1)] + EndOps()))))
  }

  /** A run in which the end of stream 0 is reported, a smaller frame size is set, and a frame of it
      comes out. */
  lemma ResizeRevives()
    ensures Basic(NewQueue([true, true], 0)) && LegalRun(NewQueue([true, true], 0), ResizeOps())
    ensures Run(NewQueue([true, true], 0), ResizeOps()).1
         == [Quiet] + ([Accepted(0, Quietly(0, 10))] + ([Accepted(1, FiveTicks())] +
              ([Released(1, FiveTicks())] + ([Quiet] + EndEvents()))))
    ensures EndEvents() == [AtEof(0), Quiet, Released(0, Quietly(0, 5))]
  {
    SizeStep();
    SamplesStep();
    ShortStep();
    ShortOutStep();
    FinishStep();
    EndSteps();
    LegalPair(NewStream(true), NewStream(true), -1);
    LegalPair(Sent(), Short([]), 1);
    hide Step, Leftover, Pair, NewStream, Sized, Sent, Short, Basic, Run, LegalRun, Quietly, Legal, FiveTicks, NewQueue;
    var ops := [Finish(1)] + EndOps();
    assert EndEvents() == [AtEof(0), Quiet, Released(0, Quietly(0, 5))];
    hide EndOps, EndEvents;
    Prepend(Pair(Sent(), Short([]), 1), Finish(1), Leftover(10), Quiet, EndOps());
    Prepend(Pair(Sent(), Short([FiveTicks()]), 1), Recv(1), Pair(Sent(), Short([]), 1), Released(1, FiveTicks()), ops);
    ops := [Recv(1)] + ops;
    Prepend(Pair(Sent(), NewStream(true), -1), Send(1, FiveTicks()), Pair(Sent(), Short([FiveTicks()]), 1),
            Accepted(1, FiveTicks()), ops);
    ops := [Send(1, FiveTicks())] + ops;
    Prepend(Pair(Sized(), NewStream(true), -1), Send(0, Quietly(0, 10)), Pair(Sent(), NewStream(true), -1),
            Accepted(0, Quietly(0, 10)), ops);
    ops := [Send(0, Quietly(0, 10))] + ops;
    Prepend(Pair(NewStream(true), NewStream(true), -1), FrameSize(0, 10), Pair(Sized(), NewStream(true), -1), Quiet, ops);
  }
}
