/** Frame-rate conversion of fftools/ffmpeg_filter.c: how often each input frame is written.

Doubles are reals, and llrint / llrintf round halves to even; times are in ticks of the output.
 */
module FrameRateModel {
  import opened Wrappers

  /** llrint in the default rounding mode. */
  function Round(x: real): int {
    var f := x.Floor;
    var d := x - f as real;
    if d < 0.5 || (d == 0.5 && f % 2 == 0) then f else f + 1
  }

  lemma RoundNear(x: real)
    ensures x - 0.5 <= Round(x) as real <= x + 0.5
  {
  }

  /** And of the two nearest integers it takes the even one. */
  lemma RoundTies(n: int)
    ensures Round(n as real + 0.5) == if n % 2 == 0 then n else n + 1
  {
    assert (n as real + 0.5).Floor == n;
  }

  lemma RoundMonotone(x: real, y: real)
    requires x <= y
    ensures Round(x) <= Round(y)
  {
    if x.Floor == y.Floor {
    } else {
      assert x.Floor + 1 <= y.Floor;
    }
  }

  datatype Sync = Passthrough | Cfr | Vfr | Vscfr | Drop

  /** An input frame with a timestamp: its start and duration in output ticks. */
  datatype Input = Input(id: nat, start: real, duration: real)

  datatype Output = Output(id: nat, pts: int)

  /** The conversion state; `lastId` is the previous frame, if there was one. */
  datatype Conv = Conv(
    nextPts: int, frameNumber: nat, lastDropped: bool, lastId: Option<nat>,
    dup: int, drop: int)

  datatype Settings = Settings(sync: Sync, dropThreshold: real, dupLimit: real)

  function Fresh(): Conv {
    Conv(0, 0, false, None, 0, 0)
  }

  /** How often to write this frame (nb, of which nbPrev are the previous frame), and the
      output position to start from. */
  datatype Decision = Decision(nb: int, nbPrev: int, nextPts: int)

  function End(f: Input): real {
    f.start + f.duration
  }

  function Clipped(c: Conv, f: Input): bool {
    f.start < c.nextPts as real && End(f) > c.nextPts as real
  }

  function CfrDecision(t: Settings, frameNumber: nat, delta0: real, delta: real, nextPts: int): Decision {
    if t.dropThreshold != 0.0 && delta < t.dropThreshold && frameNumber != 0 then Decision(0, 0, nextPts)
    else if delta < -1.1 then Decision(0, 0, nextPts)
    else if delta > 1.1 then Decision(Round(delta), if delta0 > 1.1 then Round(delta0 - 0.6) else 0, nextPts)
    else Decision(1, 0, nextPts)
  }

  function Decide(t: Settings, c: Conv, f: Input): Decision {
    var next := c.nextPts as real;
    match t.sync
    case Passthrough => Decision(1, 0, Round(f.start))
    case Drop => Decision(1, 0, Round(f.start))
    case Vfr =>
      var start := if Clipped(c, f) then next else f.start;
      var delta := End(f) - next;
      if delta <= -0.6 then Decision(0, 0, c.nextPts)
      else if delta > 0.6 then Decision(1, 0, Round(start))
      else Decision(1, 0, c.nextPts)
    case Cfr =>
      CfrDecision(t, c.frameNumber, if Clipped(c, f) then 0.0 else f.start - next, End(f) - next, c.nextPts)
    case Vscfr =>
      var delta0 := if Clipped(c, f) then 0.0 else f.start - next;
      if c.frameNumber == 0 && delta0 >= 0.5
      then CfrDecision(t, c.frameNumber, 0.0, f.duration, Round(f.start))
      else CfrDecision(t, c.frameNumber, delta0, End(f) - next, c.nextPts)
  }

  /** The duplication the code refuses as too large. */
  predicate Cutoff(t: Settings, c: Conv, d: Decision) {
    d.nb > Used(c, d) && d.nb as real > t.dupLimit
  }

  function Bit(b: bool): nat {
    if b then 1 else 0
  }

  /** The writes that are no duplicates: the first use of the previous frame if it was
      pending, and the first use of this one. */
  function Used(c: Conv, d: Decision): nat {
    Bit(d.nbPrev != 0 && c.lastDropped) + Bit(d.nb > d.nbPrev)
  }

  function Account(t: Settings, c: Conv, d: Decision): Conv {
    var c1 := c.(nextPts := d.nextPts, drop := c.drop + Bit(d.nbPrev == 0 && c.lastDropped));
    if Cutoff(t, c, d) then c1.(drop := c1.drop + 1)
    else c1.(dup := c.dup + (if d.nb > Used(c, d) then d.nb - Used(c, d) else 0), lastDropped := d.nb == d.nbPrev)
  }

  function Writes(t: Settings, c: Conv, d: Decision): nat {
    if Cutoff(t, c, d) || d.nb < 0 then 0 else d.nb
  }

  function Emit(c: Conv, d: Decision, id: nat, n: nat): (r: seq<Output>)
    ensures |r| == n
  {
    seq(n, i requires 0 <= i < n =>
      Output(if i < d.nbPrev && c.lastId.Some? then c.lastId.value else id, d.nextPts + i))
  }

  /** One non-NULL frame through fg_output_frame. */
  function Process(t: Settings, c: Conv, f: Input): (r: (Conv, seq<Output>)) {
    var d := Decide(t, c, f);
    var n := Writes(t, c, d);
    var c1 := Account(t, c, d);
    (c1.(nextPts := c1.nextPts + n, frameNumber := c1.frameNumber + n, lastId := Some(f.id)), Emit(c, d, f.id, n))
  }

  function Run(t: Settings, c: Conv, frames: seq<Input>): (r: (Conv, seq<Output>)) {
    if frames == [] then (c, [])
    else
      var (c1, out1) := Run(t, c, frames[..|frames| - 1]);
      var (c2, out2) := Process(t, c1, frames[|frames| - 1]);
      (c2, out1 + out2)
  }
}

module FrameRateProofs {
  import opened FrameRateModel
  import opened Wrappers

  predicate NonNegative(frames: seq<Input>) {
    forall k :: 0 <= k < |frames| ==> frames[k].duration >= 0.0
  }

  /** The decision taken for frame k of a run. */
  function DecisionAt(t: Settings, c: Conv, frames: seq<Input>, k: nat): Decision
    requires k < |frames|
  {
    Decide(t, Run(t, c, frames[..k]).0, frames[k])
  }

  predicate NoCutoff(t: Settings, c: Conv, frames: seq<Input>) {
    forall k :: 0 <= k < |frames| ==> !Cutoff(t, Run(t, c, frames[..k]).0, DecisionAt(t, c, frames, k))
  }

  lemma RunPrefix(t: Settings, c: Conv, frames: seq<Input>)
    requires frames != []
    ensures var last := |frames| - 1;
            && (NonNegative(frames) ==> NonNegative(frames[..last]))
            && (NoCutoff(t, c, frames) ==> NoCutoff(t, c, frames[..last]))
            && (NoCutoff(t, c, frames) ==> !Cutoff(t, Run(t, c, frames[..last]).0, DecisionAt(t, c, frames, last)))
  {
    var last := |frames| - 1;
    forall k | 0 <= k < last
      ensures frames[..last][..k] == frames[..k] && DecisionAt(t, c, frames[..last], k) == DecisionAt(t, c, frames, k)
    {
      assert frames[..last][..k] == frames[..k];
    }
  }

  /** With a non-negative duration the previous frame is never asked for more often than all
      writes together: rounding is monotone. */
  lemma PrevWithin(t: Settings, c: Conv, f: Input)
    requires f.duration >= 0.0
    ensures 0 <= Decide(t, c, f).nbPrev <= Decide(t, c, f).nb
  {
    var next := c.nextPts as real;
    var delta0 := if Clipped(c, f) then 0.0 else f.start - next;
    RoundMonotone(delta0 - 0.6, End(f) - next);
    RoundNear(delta0 - 0.6);
    RoundNear(End(f) - next);
    RoundNear(f.duration);
  }

  // ---- conservation ----

  function Balance(c: Conv): int {
    c.drop + Bit(c.lastDropped) - c.dup
  }

  /** A frame keeps the books balanced - frames written plus dropped plus pending, less
      duplicates, grow by one - exactly if it asks for no more copies of the previous frame
      than of all, or, at the duplication cutoff, if it leaves no pending frame unwritten. */
  lemma StepBalance(t: Settings, c: Conv, f: Input)
    ensures var d := Decide(t, c, f);
            var (c', out) := Process(t, c, f);
            |out| + Balance(c') == Balance(c) + 1 <==>
              if Cutoff(t, c, d) then !(c.lastDropped && d.nbPrev == 0) else d.nbPrev <= d.nb
  {
    DecisionRange(t, c, f);
  }

  lemma DecisionRange(t: Settings, c: Conv, f: Input)
    ensures var d := Decide(t, c, f); d.nb >= 0 && d.nbPrev >= 0 && (d.nbPrev > 0 ==> d.nb > 0)
  {
    var next := c.nextPts as real;
    var delta0 := if Clipped(c, f) then 0.0 else f.start - next;
    RoundNear(delta0 - 0.6);
    RoundNear(End(f) - next);
    RoundNear(f.duration);
  }

  /** Over every run: written + dropped + pending == received + duplicated. */
  lemma {:induction false} Conservation(t: Settings, c: Conv, frames: seq<Input>)
    requires NonNegative(frames) && NoCutoff(t, c, frames)
    ensures var (c', out) := Run(t, c, frames); |out| + Balance(c') == |frames| + Balance(c)
  {
    if frames != [] {
      RunPrefix(t, c, frames);
      var last := |frames| - 1;
      Conservation(t, c, frames[..last]);
      var c1 := Run(t, c, frames[..last]).0;
      PrevWithin(t, c1, frames[last]);
      StepBalance(t, c1, frames[last]);
    }
  }

  // ---- what the counters mean ----

  function CountOf(out: seq<Output>, id: nat): nat {
    if out == [] then 0 else CountOf(out[..|out| - 1], id) + Bit(out[|out| - 1].id == id)
  }

  lemma {:induction false} CountAppend(a: seq<Output>, b: seq<Output>, id: nat)
    ensures CountOf(a + b, id) == CountOf(a, id) + CountOf(b, id)
  {
    if b == [] {
      assert a + b == a;
    } else {
      var last := |b| - 1;
      CountAppend(a, b[..last], id);
      assert (a + b)[..|a + b| - 1] == a + b[..last];
    }
  }

  lemma {:induction false} CountEmitted(c: Conv, d: Decision, id: nat, n: nat, k: nat)
    requires c.lastId != Some(id)
    ensures CountOf(Emit(c, d, id, n), k) ==
              var fromPrev := if c.lastId.None? || d.nbPrev < 0 then 0 else if d.nbPrev < n then d.nbPrev else n;
              if k == id then n - fromPrev else if c.lastId == Some(k) then fromPrev else 0
  {
    if n > 0 {
      CountEmitted(c, d, id, n - 1, k);
      assert Emit(c, d, id, n)[..n - 1] == Emit(c, d, id, n - 1);
    }
  }

  /** Frames number themselves from 0. */
  predicate Numbered(frames: seq<Input>) {
    forall k :: 0 <= k < |frames| ==> frames[k].id == k
  }

  function Counts(out: seq<Output>, n: nat): seq<nat> {
    seq(n, k requires 0 <= k < n => CountOf(out, k))
  }

  /** Input frames that were never written. */
  function Unwritten(counts: seq<nat>): nat {
    if counts == [] then 0 else Unwritten(counts[..|counts| - 1]) + Bit(counts[|counts| - 1] == 0)
  }

  /** Writes beyond the first of each input frame. */
  function Extra(counts: seq<nat>): nat {
    if counts == [] then 0
    else Extra(counts[..|counts| - 1]) + if counts[|counts| - 1] > 1 then counts[|counts| - 1] - 1 else 0
  }

  /** The first frame is not itself written as copies of a previous frame it does not have. */
  predicate GoodFirst(t: Settings, frames: seq<Input>) {
    frames != [] ==> var d := Decide(t, Fresh(), frames[0]); !(d.nbPrev == d.nb > 0)
  }

  predicate CountsTrue(c: Conv, counts: seq<nat>) {
    && c.drop == (if counts == [] then 0 else Unwritten(counts[..|counts| - 1]))
    && c.dup == Extra(counts)
    && (c.lastDropped <==> counts != [] && counts[|counts| - 1] == 0)
  }

  ghost predicate CountersTrue(c: Conv, out: seq<Output>, n: nat) {
    && CountsTrue(c, Counts(out, n))
    && c.lastId == (if n == 0 then None else Some(n - 1))
    && forall k :: k >= n ==> CountOf(out, k) == 0
  }

  lemma CountBefore(c: Conv, out: seq<Output>, n: nat)
    requires CountersTrue(c, out, n)
    ensures forall k :: k >= n ==> CountOf(out, k) == 0
  {
  }

  lemma CountAfter(t: Settings, c: Conv, out: seq<Output>, n: nat, f: Input, k: nat)
    requires CountersTrue(c, out, n) && f.id == n && f.duration >= 0.0
    requires !Cutoff(t, c, Decide(t, c, f))
    ensures var d := Decide(t, c, f);
            CountOf(out + Process(t, c, f).1, k) == CountOf(out, k)
            + if k == n then d.nb - (if n == 0 then 0 else d.nbPrev)
              else if k + 1 == n then d.nbPrev else 0
  {
    PrevWithin(t, c, f);
    var d := Decide(t, c, f);
    var more := Process(t, c, f).1;
    assert more == Emit(c, d, f.id, d.nb);
    hide Decide, Emit, CountsTrue, Process, Cutoff;
    CountAppend(out, more, k);
    CountEmitted(c, d, f.id, d.nb, k);
  }

  /** One more frame: the previous one gets nbPrev more writes, the new one the rest. */
  lemma CountsStep(t: Settings, c: Conv, out: seq<Output>, n: nat, f: Input)
    requires CountersTrue(c, out, n) && f.id == n && f.duration >= 0.0
    requires !Cutoff(t, c, Decide(t, c, f))
    ensures var d := Decide(t, c, f);
            var counts, counts' := Counts(out, n), Counts(out + Process(t, c, f).1, n + 1);
            && (n > 0 ==> counts'[..n] == counts[n - 1 := counts[n - 1] + d.nbPrev] && counts'[n] == d.nb - d.nbPrev)
            && (n == 0 ==> counts' == [d.nb])
            && forall k :: k >= n + 1 ==> CountOf(out + Process(t, c, f).1, k) == 0
  {
    var d := Decide(t, c, f);
    var more := Process(t, c, f).1;
    PrevWithin(t, c, f);
    hide Decide, CountersTrue, Process, Cutoff, CountOf;
    forall k: nat
      ensures CountOf(out + more, k) == CountOf(out, k) + if k == n then d.nb - (if n == 0 then 0 else d.nbPrev)
                                                          else if k + 1 == n then d.nbPrev else 0
    {
      CountAfter(t, c, out, n, f, k);
    }
    CountBefore(c, out, n);
    var counts, counts' := Counts(out, n), Counts(out + more, n + 1);
    if n > 0 {
      assert counts'[..n] == counts[n - 1 := counts[n - 1] + d.nbPrev];
    } else {
      assert counts' == [d.nb];
    }
  }

  lemma LastCount(counts: seq<nat>, n: nat, more: nat)
    requires |counts| == n > 0
    ensures var counts' := counts[n - 1 := counts[n - 1] + more];
            && Unwritten(counts') == Unwritten(counts[..n - 1]) + Bit(counts[n - 1] + more == 0)
            && Extra(counts') == Extra(counts[..n - 1]) + (if counts[n - 1] + more > 1 then counts[n - 1] + more - 1 else 0)
  {
    assert counts[n - 1 := counts[n - 1] + more][..n - 1] == counts[..n - 1];
  }

  lemma CountsAppend(counts: seq<nat>, own: nat)
    ensures Unwritten(counts + [own]) == Unwritten(counts) + Bit(own == 0)
    ensures Extra(counts + [own]) == Extra(counts) + if own > 1 then own - 1 else 0
  {
    assert (counts + [own])[..|counts|] == counts;
  }

  lemma StepCounters(t: Settings, c: Conv, out: seq<Output>, n: nat, f: Input)
    requires CountersTrue(c, out, n) && f.id == n && f.duration >= 0.0
    requires !Cutoff(t, c, Decide(t, c, f))
    requires n == 0 ==> c == Fresh() && !(Decide(t, c, f).nbPrev == Decide(t, c, f).nb > 0)
    ensures var (c', out') := Process(t, c, f); CountersTrue(c', out + out', n + 1)
  {
    PrevWithin(t, c, f);
    CountsStep(t, c, out, n, f);
    ProcessState(t, c, f);
    var d := Decide(t, c, f);
    var (c', out') := Process(t, c, f);
    var counts' := Counts(out + out', n + 1);
    hide Process, Decide, CountOf, CountsTrue, Account, Cutoff;
    if n > 0 {
      assert counts' == counts'[..n] + [d.nb - d.nbPrev];
      GrowCounts(t, c, d, Counts(out, n));
    } else {
      FirstCount(t, d);
    }
    SameCounters(Account(t, c, d), c', counts');
  }

  lemma ProcessState(t: Settings, c: Conv, f: Input)
    ensures var c1, c' := Account(t, c, Decide(t, c, f)), Process(t, c, f).0;
            && c'.drop == c1.drop && c'.dup == c1.dup && c'.lastDropped == c1.lastDropped
            && c'.lastId == Some(f.id)
  {
  }

  lemma SameCounters(a: Conv, b: Conv, counts: seq<nat>)
    requires CountsTrue(a, counts) && b.drop == a.drop && b.dup == a.dup && b.lastDropped == a.lastDropped
    ensures CountsTrue(b, counts)
  {
  }

  lemma GrowCounts(t: Settings, c: Conv, d: Decision, counts: seq<nat>)
    requires CountsTrue(c, counts) && counts != []
    requires 0 <= d.nbPrev <= d.nb && !Cutoff(t, c, d)
    ensures var n := |counts|;
            CountsTrue(Account(t, c, d), counts[n - 1 := counts[n - 1] + d.nbPrev] + [d.nb - d.nbPrev])
  {
    hide Account, Cutoff, Unwritten, Extra;
    var n := |counts|;
    LastCount(counts, n, 0);
    assert counts[n - 1 := counts[n - 1] + 0] == counts;
    LastCount(counts, n, d.nbPrev);
    var moved := counts[n - 1 := counts[n - 1] + d.nbPrev];
    CountsAppend(moved, d.nb - d.nbPrev);
    assert (moved + [d.nb - d.nbPrev])[..n] == moved;
    StepSums(t, c, d, counts[n - 1]);
  }

  /** The counters are right after the first frame exactly if it is a good first frame. */
  lemma FirstCount(t: Settings, d: Decision)
    requires 0 <= d.nbPrev <= d.nb && !Cutoff(t, Fresh(), d)
    ensures CountsTrue(Account(t, Fresh(), d), [d.nb]) <==> !(d.nbPrev == d.nb > 0)
  {
    CountsAppend([], d.nb);
    assert [] + [d.nb] == [d.nb] && [d.nb][..0] == [];
  }

  /** The arithmetic of one step: what the previous frame's count gains and the new one starts with. */
  lemma StepSums(t: Settings, c: Conv, d: Decision, before: nat)
    requires 0 <= d.nbPrev <= d.nb && !Cutoff(t, c, d)
    requires c.lastDropped <==> before == 0
    ensures var c' := Account(t, c, d);
            var own := d.nb - d.nbPrev;
            && c'.drop == c.drop + Bit(before + d.nbPrev == 0)
            && c'.dup == c.dup
                 + (if before + d.nbPrev > 1 then before + d.nbPrev - 1 else 0) - (if before > 1 then before - 1 else 0)
                 + (if own > 1 then own - 1 else 0)
            && (c'.lastDropped <==> own == 0)
  {
  }

  /** Otherwise the very first frame is miscounted: written twice, it counts as two duplicates
      and as pending. */
  lemma FirstFrameMiscounted()
    ensures var t := Settings(Cfr, 0.0, 1000.0);
            var f := Input(0, 2.1, 0.0);
            var (c, out) := Process(t, Fresh(), f);
            && out == [Output(0, 0), Output(0, 1)] && c.dup == 2 && c.lastDropped
            && Extra(Counts(out, 1)) == 1
  {
    var t := Settings(Cfr, 0.0, 1000.0);
    var f := Input(0, 2.1, 0.0);
    assert Decide(t, Fresh(), f) == Decision(2, 2, 0);
    var out := Process(t, Fresh(), f).1;
    assert out == [Output(0, 0), Output(0, 1)];
    assert out[..1] == [Output(0, 0)];
    assert CountOf(out, 0) == 2;
    assert Counts(out, 1) == [2];
  }

  // ---- the counters over whole runs ----

  /** The second frame asks for copies of the first. */
  predicate SecondCopies(t: Settings, frames: seq<Input>) {
    |frames| >= 2 && DecisionAt(t, Fresh(), frames, 1).nbPrev > 0
  }

  /** Off by the miscounted first frame: one duplicate too many and wrongly pending, and once the
      next frame has not asked for it, one drop too many instead. */
  ghost predicate OffByFirst(c: Conv, out: seq<Output>, n: nat) {
    if n == 1 then c.lastDropped && CountersTrue(c.(dup := c.dup - 1, lastDropped := false), out, n)
    else CountersTrue(c.(dup := c.dup - 1, drop := c.drop - 1), out, n)
  }

  lemma OffIsWrong(c: Conv, out: seq<Output>, n: nat)
    requires OffByFirst(c, out, n)
    ensures !CountersTrue(c, out, n)
  {
  }

  lemma BadFirst(t: Settings, f: Input)
    requires f.id == 0 && f.duration >= 0.0 && !Cutoff(t, Fresh(), Decide(t, Fresh(), f))
    requires var d := Decide(t, Fresh(), f); d.nbPrev == d.nb > 0
    ensures var (c, out) := Process(t, Fresh(), f); OffByFirst(c, out, 1)
  {
    assert CountersTrue(Fresh(), [], 0);
    CountsStep(t, Fresh(), [], 0, f);
    var d := Decide(t, Fresh(), f);
    var (c, out) := Process(t, Fresh(), f);
    assert [] + out == out;
    hide Decide, Process, CountOf;
    assert Counts(out, 1) == [d.nb];
    CountsAppend([], d.nb);
    assert [] + [d.nb] == [d.nb] && [d.nb][..0] == [];
    ProcessState(t, Fresh(), f);
  }

  /** The second frame after a bad first. */
  lemma AfterBadFirst(t: Settings, c: Conv, out: seq<Output>, f: Input)
    requires OffByFirst(c, out, 1) && f.id == 1 && f.duration >= 0.0 && !Cutoff(t, c, Decide(t, c, f))
    ensures var d := Decide(t, c, f);
            var (c', out') := Process(t, c, f);
            if d.nbPrev > 0 then CountersTrue(c', out + out', 2) else OffByFirst(c', out + out', 2)
  {
    var d := Decide(t, c, f);
    PrevWithin(t, c, f);
    var right := c.(dup := c.dup - 1, lastDropped := false);
    var lax := t.(dupLimit := d.nb as real);
    SameDecision(t, lax, c, right, f);
    hide Decide, CountersTrue;
    StepCounters(lax, right, out, 1, f);
    if d.nbPrev > 0 {
      assert Process(t, c, f) == Process(lax, right, f);
    } else {
      var (c', out') := Process(t, c, f);
      assert Process(lax, right, f) == (c'.(dup := c'.dup - 1, drop := c'.drop - 1), out');
    }
  }

  lemma SameDecision(t: Settings, t': Settings, c: Conv, c': Conv, f: Input)
    requires t'.sync == t.sync && t'.dropThreshold == t.dropThreshold
    requires c'.nextPts == c.nextPts && c'.frameNumber == c.frameNumber
    ensures Decide(t', c', f) == Decide(t, c, f)
  {
  }

  /** Off by one and one, and so for good. */
  lemma StaysOff(t: Settings, c: Conv, out: seq<Output>, n: nat, f: Input)
    requires OffByFirst(c, out, n) && n >= 2 && f.id == n && f.duration >= 0.0 && !Cutoff(t, c, Decide(t, c, f))
    ensures var (c', out') := Process(t, c, f); OffByFirst(c', out + out', n + 1)
  {
    var right := c.(dup := c.dup - 1, drop := c.drop - 1);
    ShiftedCounters(t, c, f);
    hide Decide, CountersTrue, Process, Cutoff;
    StepCounters(t, right, out, n, f);
  }

  lemma ShiftedCounters(t: Settings, c: Conv, f: Input)
    ensures var shifted := c.(dup := c.dup - 1, drop := c.drop - 1);
            var (c', out') := Process(t, c, f);
            && Decide(t, shifted, f) == Decide(t, c, f)
            && (Cutoff(t, shifted, Decide(t, c, f)) <==> Cutoff(t, c, Decide(t, c, f)))
            && Process(t, shifted, f) == (c'.(dup := c'.dup - 1, drop := c'.drop - 1), out')
  {
    SameDecision(t, t, c, c.(dup := c.dup - 1, drop := c.drop - 1), f);
    hide Decide;
  }

  lemma {:induction false} CounterState(t: Settings, frames: seq<Input>)
    requires Numbered(frames) && NonNegative(frames) && NoCutoff(t, Fresh(), frames)
    ensures var (c, out) := Run(t, Fresh(), frames);
            if GoodFirst(t, frames) || SecondCopies(t, frames) then CountersTrue(c, out, |frames|)
            else OffByFirst(c, out, |frames|)
  {
    if frames != [] {
      var n := |frames| - 1;
      var before := frames[..n];
      RunPrefix(t, Fresh(), frames);
      CounterState(t, before);
      var (c, out) := Run(t, Fresh(), before);
      var f := frames[n];
      if n == 0 {
        assert before == [] && c == Fresh() && out == [];
        assert [] + Process(t, c, f).1 == Process(t, c, f).1;
        FirstStep(t, f);
      } else {
        assert before[0] == frames[0];
        assert n >= 2 ==> before[..1] == frames[..1] && before[1] == frames[1];
        assert n == 1 ==> before == frames[..1];
        hide Decide, Process, Cutoff, CountersTrue, OffByFirst;
        if GoodFirst(t, before) || SecondCopies(t, before) {
          StepCounters(t, c, out, n, f);
        } else if n == 1 {
          AfterBadFirst(t, c, out, f);
        } else {
          StaysOff(t, c, out, n, f);
        }
      }
    }
  }

  lemma FirstStep(t: Settings, f: Input)
    requires f.id == 0 && f.duration >= 0.0 && !Cutoff(t, Fresh(), Decide(t, Fresh(), f))
    ensures var d := Decide(t, Fresh(), f);
            var (c, out) := Process(t, Fresh(), f);
            if d.nbPrev == d.nb > 0 then OffByFirst(c, out, 1) else CountersTrue(c, out, 1)
  {
    assert CountersTrue(Fresh(), [], 0);
    var d := Decide(t, Fresh(), f);
    var (c, out) := Process(t, Fresh(), f);
    assert [] + out == out;
    hide Decide, Process, Cutoff, OffByFirst;
    if d.nbPrev == d.nb > 0 {
      BadFirst(t, f);
    } else {
      StepCounters(t, Fresh(), [], 0, f);
    }
  }

  /** Over every run, the drop counter is the number of earlier frames never written, and the dup
      counter the number of writes beyond the first of each frame, exactly if the first frame is a
      good one or the second asks for copies of it. */
  lemma CountersTrueIff(t: Settings, frames: seq<Input>)
    requires Numbered(frames) && NonNegative(frames) && NoCutoff(t, Fresh(), frames)
    ensures var (c, out) := Run(t, Fresh(), frames);
            CountersTrue(c, out, |frames|) <==> GoodFirst(t, frames) || SecondCopies(t, frames)
  {
    CounterState(t, frames);
    var (c, out) := Run(t, Fresh(), frames);
    if OffByFirst(c, out, |frames|) {
      OffIsWrong(c, out, |frames|);
    }
  }

  // ---- drift ----

  predicate EndsInOrder(frames: seq<Input>) {
    forall j, k :: 0 <= j <= k < |frames| ==> End(frames[j]) <= End(frames[k])
  }

  /** In constant-rate mode the output stays with the input: after each frame the end of the
      input lies between 2.1 ticks before and 0.5 ticks after the next output position. */
  lemma {:induction false} Drift(t: Settings, c: Conv, frames: seq<Input>)
    requires t.sync == Cfr && t.dropThreshold == 0.0
    requires frames != [] && EndsInOrder(frames) && NonNegative(frames) && NoCutoff(t, c, frames)
    requires End(frames[0]) - c.nextPts as real >= -2.1
    ensures var last := |frames| - 1;
            -2.1 <= End(frames[last]) - Run(t, c, frames).0.nextPts as real <= 0.5
  {
    var last := |frames| - 1;
    RunPrefix(t, c, frames);
    var c1 := Run(t, c, frames[..last]).0;
    if last > 0 {
      Drift(t, c, frames[..last]);
      assert frames[..last][last - 1] == frames[last - 1];
    }
    DriftStep(t, c1, frames[last]);
  }

  lemma DriftStep(t: Settings, c: Conv, f: Input)
    requires t.sync == Cfr && t.dropThreshold == 0.0 && f.duration >= 0.0
    requires !Cutoff(t, c, Decide(t, c, f)) && End(f) - c.nextPts as real >= -2.1
    ensures -2.1 <= End(f) - Process(t, c, f).0.nextPts as real <= 0.5
  {
    RoundNear(End(f) - c.nextPts as real);
  }

  // ---- output timestamps ----

  /** Constant rate: the output timestamps are consecutive integers. */
  lemma {:induction false} CfrConsecutive(t: Settings, c: Conv, frames: seq<Input>, k: nat)
    requires t.sync == Cfr && k < |Run(t, c, frames).1|
    ensures Run(t, c, frames).1[k].pts == c.nextPts + k
    ensures Run(t, c, frames).0.nextPts == c.nextPts + |Run(t, c, frames).1|
  {
    CfrPosition(t, c, frames);
    var last := |frames| - 1;
    CfrPosition(t, c, frames[..last]);
    var out := Run(t, c, frames[..last]).1;
    if k < |out| {
      CfrConsecutive(t, c, frames[..last], k);
    }
  }

  lemma {:induction false} CfrPosition(t: Settings, c: Conv, frames: seq<Input>)
    requires t.sync == Cfr
    ensures Run(t, c, frames).0.nextPts == c.nextPts + |Run(t, c, frames).1|
  {
    if frames != [] {
      CfrPosition(t, c, frames[..|frames| - 1]);
    }
  }

  /** Variable rate: the output timestamps strictly increase and lie before the next position. */
  lemma {:induction false} VfrIncreasing(t: Settings, c: Conv, frames: seq<Input>)
    requires t.sync == Vfr && NonNegative(frames)
    ensures var (c', out) := Run(t, c, frames);
            && c.nextPts <= c'.nextPts
            && (forall k :: 0 <= k < |out| ==> c.nextPts <= out[k].pts < c'.nextPts)
            && forall j, k :: 0 <= j < k < |out| ==> out[j].pts < out[k].pts
  {
    if frames != [] {
      var last := |frames| - 1;
      VfrIncreasing(t, c, frames[..last]);
      VfrStep(t, Run(t, c, frames[..last]).0, frames[last]);
    }
  }

  lemma VfrStep(t: Settings, c: Conv, f: Input)
    requires t.sync == Vfr && f.duration >= 0.0
    ensures var (c', out) := Process(t, c, f);
            && c.nextPts <= c'.nextPts && |out| <= 1
            && forall k :: 0 <= k < |out| ==> c.nextPts <= out[k].pts < c'.nextPts
  {
    if f.start >= c.nextPts as real {
      RoundMonotone(c.nextPts as real, f.start);
    }
  }

  /** Where a variable-rate frame goes: it is dropped exactly if it ends 0.6 ticks or more before the
      next position, and otherwise written once, no more than 0.6 ticks outside its own time. */
  lemma VfrPlaced(t: Settings, c: Conv, f: Input)
    requires t.sync == Vfr && f.duration >= 0.0
    ensures var (c', out) := Process(t, c, f);
            if End(f) <= c.nextPts as real - 0.6 then out == [] && c'.nextPts == c.nextPts
            else
              && |out| == 1 && out[0].id == f.id && c'.nextPts == out[0].pts + 1
              && f.start - 0.6 <= out[0].pts as real <= End(f) + 0.6
  {
    RoundNear(f.start);
    assert Round(c.nextPts as real) == c.nextPts;
    hide Round;
  }

  /** The position after the last frame written. */
  function Following(c: Conv, out: seq<Output>): int {
    if out == [] then c.nextPts else out[|out| - 1].pts + 1
  }

  /** The frames of a run that end later than 0.6 ticks before that position. */
  function Kept(t: Settings, c: Conv, frames: seq<Input>): seq<Input> {
    if frames == [] then []
    else
      var before, f := frames[..|frames| - 1], frames[|frames| - 1];
      Kept(t, c, before) + if End(f) <= Following(c, Run(t, c, before).1) as real - 0.6 then [] else [f]
  }

  predicate Placed(f: Input, o: Output) {
    o.id == f.id && f.start - 0.6 <= o.pts as real <= End(f) + 0.6
  }

  /** Over every run in variable-rate mode, exactly those frames are written, once each and in order,
      each within 0.6 ticks of its own time. */
  lemma {:induction false} VfrRunPlaced(t: Settings, c: Conv, frames: seq<Input>)
    requires t.sync == Vfr && NonNegative(frames)
    ensures var (c', out) := Run(t, c, frames);
            var kept := Kept(t, c, frames);
            && c'.nextPts == Following(c, out)
            && |out| == |kept| && forall k :: 0 <= k < |out| ==> Placed(kept[k], out[k])
  {
    if frames != [] {
      var last := |frames| - 1;
      VfrRunPlaced(t, c, frames[..last]);
      VfrPlaced(t, Run(t, c, frames[..last]).0, frames[last]);
      hide Process;
    }
  }

  // ---- where constant-rate frames go ----

  /** A constant-rate frame is dropped exactly if it ends more than 1.1 ticks before the next position,
      or, after the first frame, less far past it than the drop threshold. Otherwise it is written from
      there on without a gap: once if it ends at most 1.1 ticks past it, else up to half a tick of its
      end. A gap of more than 1.1 ticks before it is filled with `copies` of the previous frame, so that
      its own start between 0.1 and 1.1 ticks early. */
  lemma CfrPlaced(t: Settings, c: Conv, f: Input) returns (copies: nat)
    requires t.sync == Cfr && f.duration >= 0.0 && !Cutoff(t, c, Decide(t, c, f))
    ensures var out := Process(t, c, f).1;
            var next := c.nextPts as real;
            && (out == [] <==>
                  || End(f) < next - 1.1
                  || (t.dropThreshold != 0.0 && c.frameNumber != 0 && End(f) - next < t.dropThreshold))
            && (out != [] ==>
                  && copies <= |out|
                  && (if End(f) <= next + 1.1 then |out| == 1
                      else End(f) - 0.5 <= next + |out| as real <= End(f) + 0.5)
                  && (if f.start <= next + 1.1 then copies == 0
                      else f.start - 1.1 <= next + copies as real <= f.start - 0.1)
                  && forall i :: 0 <= i < |out| ==>
                       out[i] == Output(if i < copies && c.lastId.Some? then c.lastId.value else f.id, c.nextPts + i))
  {
    var d := Decide(t, c, f);
    PrevWithin(t, c, f);
    copies := d.nbPrev;
    var next := c.nextPts as real;
    RoundNear(End(f) - next);
    RoundNear(f.start - next - 0.6);
    assert Process(t, c, f).1 == Emit(c, d, f.id, d.nb);
    hide Round, Cutoff, Process;
  }

  /** How often a frame is written: as often as decided, unless that is too often and not just for the
      frame and a pending one before it; the next position follows what was written. */
  lemma WritesIff(t: Settings, c: Conv, f: Input)
    ensures var d := Decide(t, c, f);
            var firsts := (if d.nbPrev != 0 && c.lastDropped then 1 else 0) + (if d.nb > d.nbPrev then 1 else 0);
            var (c', out) := Process(t, c, f);
            && |out| == (if d.nb as real > t.dupLimit && d.nb > firsts then 0 else d.nb)
            && c'.nextPts == d.nextPts + |out| && c'.lastId == Some(f.id) && c'.frameNumber == c.frameNumber + |out|
  {
    DecisionRange(t, c, f);
    hide Decide;
  }

  /** Passthrough: every frame is written once, at its own rounded time. */
  lemma {:induction false} PassthroughOneToOne(t: Settings, c: Conv, frames: seq<Input>)
    requires (t.sync == Passthrough || t.sync == Drop) && !c.lastDropped
    ensures var (c', out) := Run(t, c, frames);
            && |out| == |frames| && !c'.lastDropped && c'.dup == c.dup && c'.drop == c.drop
            && forall k :: 0 <= k < |out| ==> out[k] == Output(frames[k].id, Round(frames[k].start))
  {
    if frames != [] {
      PassthroughOneToOne(t, c, frames[..|frames| - 1]);
    }
  }

  // ---- variable start, constant rate ----

  lemma FrameNumberGrows(t: Settings, c: Conv, frames: seq<Input>)
    ensures Run(t, c, frames).0.frameNumber >= c.frameNumber
  {
  }

  /** After the first write this mode is constant-rate conversion. */
  lemma {:induction false} VscfrIsCfr(t: Settings, c: Conv, frames: seq<Input>)
    requires t.sync == Vscfr && c.frameNumber > 0
    ensures Run(t, c, frames) == Run(t.(sync := Cfr), c, frames)
  {
    if frames != [] {
      var last := |frames| - 1;
      VscfrIsCfr(t, c, frames[..last]);
      FrameNumberGrows(t, c, frames[..last]);
      LaterVscfr(t, Run(t, c, frames[..last]).0, frames[last]);
    }
  }

  /** And so it is before it, for a frame less than half a tick ahead. */
  lemma LaterVscfr(t: Settings, c: Conv, f: Input)
    requires t.sync == Vscfr && (c.frameNumber > 0 || f.start - (c.nextPts as real) < 0.5)
    ensures Process(t, c, f) == Process(t.(sync := Cfr), c, f)
  {
    assert Decide(t, c, f) == Decide(t.(sync := Cfr), c, f);
  }

  /** Before it, a gap of half a tick or more moves the output to the frame instead of filling
      the gap with copies of it. */
  lemma VscfrStart(t: Settings, c: Conv, f: Input)
    requires t.sync == Vscfr && c.frameNumber == 0 && f.start - c.nextPts as real >= 0.5 && f.duration >= 0.0
    requires !Cutoff(t, c, Decide(t, c, f))
    ensures var (c', out) := Process(t, c, f);
            && |out| == (if f.duration > 1.1 then Round(f.duration) else 1) > 0
            && (forall k :: 0 <= k < |out| ==> out[k] == Output(f.id, Round(f.start) + k))
            && c'.nextPts == Round(f.start) + |out|
  {
    if f.duration > 1.1 {
      RoundMonotone(1.1, f.duration);
      assert Round(1.1) == 1;
    }
  }
}

/** The conversion state of an output, updated frame by frame. */
module FrameRateConversion {
  import opened FrameRateModel
  import opened FrameRateProofs
  import opened Wrappers

  class OutputFilter {
    const settings: Settings
    var nextPts: int
    var frameNumber: nat
    var lastDropped: bool
    var lastFrame: Option<nat>
    var nbFramesDup: int
    var nbFramesDrop: int

    ghost function State(): Conv
      reads this
    {
      Conv(nextPts, frameNumber, lastDropped, lastFrame, nbFramesDup, nbFramesDrop)
    }

    constructor (settings: Settings)
      ensures State() == Fresh() && this.settings == settings
    {
      this.settings := settings;
      nextPts, frameNumber, lastDropped, lastFrame, nbFramesDup, nbFramesDrop := 0, 0, false, None, 0, 0;
    }

    /** video_sync_process on a frame. */
    method VideoSync(frame: Input) returns (nbFrames: int, nbFramesPrev: int)
      modifies this
      ensures var c := old(State());
              var d := Decide(settings, c, frame);
              && State() == Account(settings, c, d)
              && nbFrames == (if Cutoff(settings, c, d) then 0 else d.nb) && nbFramesPrev == d.nbPrev
    {
      hide Account, Cutoff, Round;
      ghost var c := State();
      var syncIpts, duration := frame.start, frame.duration;
      var delta0 := syncIpts - nextPts as real;
      var delta := delta0 + duration;
      nbFramesPrev := 0;
      nbFrames := 1;
      if delta0 < 0.0 && delta > 0.0 && settings.sync != Passthrough && settings.sync != Drop {
        syncIpts := nextPts as real;
        duration := duration + delta0;
        delta0 := 0.0;
      }
      if settings.sync == Vscfr && frameNumber == 0 && delta0 >= 0.5 {
        delta := duration;
        delta0 := 0.0;
        nextPts := Round(syncIpts);
      }
      match settings.sync {
        case Vscfr | Cfr =>
          if settings.dropThreshold != 0.0 && delta < settings.dropThreshold && frameNumber != 0 {
            nbFrames := 0;
          } else if delta < -1.1 {
            nbFrames := 0;
          } else if delta > 1.1 {
            nbFrames := Round(delta);
            if delta0 > 1.1 {
              nbFramesPrev := Round(delta0 - 0.6);
            }
          }
        case Vfr =>
          if delta <= -0.6 {
            nbFrames := 0;
          } else if delta > 0.6 {
            nextPts := Round(syncIpts);
          }
        case Drop | Passthrough =>
          nextPts := Round(syncIpts);
      }
      AccountPosition(settings, c, Decision(nbFrames, nbFramesPrev, nextPts));
      nbFrames := Count(nbFrames, nbFramesPrev);
    }

    /** The counters do not depend on the output position. */
    static lemma AccountPosition(t: Settings, c: Conv, d: Decision)
      ensures var moved := c.(nextPts := d.nextPts);
              Account(t, moved, d) == Account(t, c, d) && Cutoff(t, moved, d) == Cutoff(t, c, d)
    {
    }

    /** The counters at the end of video_sync_process. */
    method Count(nbFrames: int, nbFramesPrev: int) returns (n: int)
      modifies this`nbFramesDrop, this`nbFramesDup, this`lastDropped
      ensures var c := old(State());
              var d := Decision(nbFrames, nbFramesPrev, nextPts);
              State() == Account(settings, c, d) && n == if Cutoff(settings, c, d) then 0 else nbFrames
    {
      var pending := lastDropped;
      if nbFramesPrev == 0 && pending {
        nbFramesDrop := nbFramesDrop + 1;
      }
      var used := (if nbFramesPrev != 0 && pending then 1 else 0) + (if nbFrames > nbFramesPrev then 1 else 0);
      if nbFrames > used {
        if nbFrames as real > settings.dupLimit {
          nbFramesDrop := nbFramesDrop + 1;
          return 0;
        }
        nbFramesDup := nbFramesDup + nbFrames - used;
      }
      lastDropped := nbFrames == nbFramesPrev;
      return nbFrames;
    }

    /** fg_output_frame on a video frame; `out` is what goes to the encoder. */
    method OutputFrame(frame: Input) returns (out: seq<Output>)
      modifies this
      ensures (State(), out) == Process(settings, old(State()), frame)
    {
      ghost var c := State();
      var nbFrames, nbFramesPrev := VideoSync(frame);
      ghost var d := Decide(settings, c, frame);
      DecisionRange(settings, c, frame);
      ghost var c1 := State();
      out := [];
      var i := 0;
      while i < nbFrames
        invariant 0 <= i <= nbFrames
        invariant |out| == i && out == Emit(c, d, frame.id, i)
        invariant State() == c1.(nextPts := c1.nextPts + i, frameNumber := c1.frameNumber + i)
      {
        var source := if i < nbFramesPrev && lastFrame.Some? then lastFrame.value else frame.id;
        out := out + [Output(source, nextPts)];
        frameNumber := frameNumber + 1;
        nextPts := nextPts + 1;
        i := i + 1;
      }
      lastFrame := Some(frame.id);
    }
  }
}
