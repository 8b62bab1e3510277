/** Looping an input file (-stream_loop): fftools/ffmpeg_demux.c:156-192, 404-428.

One time base for the whole file, no audio decoder reporting durations; packets carry their
pts as the file has it in every pass.
 */
module LoopModel {
  import opened Time

  datatype Packet = Packet(pts: int, dts: int, duration: int)

  /** The loop state of a Demuxer. The default base 1/1 of a duration of 0 rescales exactly. */
  datatype Demux = Demux(duration: int, minPts: int, maxPts: int)

  function Start(): Demux {
    Demux(0, NOPTS, NOPTS)
  }

  /** The loop part of ts_fixup on one packet. */
  function Fixup(d: Demux, p: Packet): (r: (Demux, Packet)) {
    var dts := if p.dts != NOPTS then p.dts + d.duration else p.dts;
    if p.pts == NOPTS then (d, p.(dts := dts))
    else
      var pts := p.pts + d.duration;
      (d.(maxPts := if d.maxPts == NOPTS || d.maxPts < pts + p.duration then pts + p.duration else d.maxPts,
          minPts := if d.minPts == NOPTS || d.minPts > pts then pts else d.minPts),
       p.(pts := pts, dts := dts))
  }

  /** seek_to_start: the next pass is shifted by everything seen so far. */
  function Rewind(d: Demux): Demux {
    if d.maxPts != NOPTS then d.(duration := d.maxPts - (if d.minPts == NOPTS then 0 else d.minPts)) else d
  }

  function Pass(d: Demux, file: seq<Packet>): (r: (Demux, seq<Packet>))
    ensures |r.1| == |file|
    decreases |file|
  {
    if file == [] then (d, [])
    else
      var (d1, p) := Fixup(d, file[0]);
      var (d2, rest) := Pass(d1, file[1..]);
      (d2, [p] + rest)
  }

  /** The demuxer when pass k begins. */
  function Before(file: seq<Packet>, k: nat): Demux {
    if k == 0 then Start() else Rewind(Pass(Before(file, k - 1), file).0)
  }

  function PassOutput(file: seq<Packet>, k: nat): (r: seq<Packet>)
    ensures |r| == |file|
  {
    Pass(Before(file, k), file).1
  }
}

module LoopProofs {
  import opened Arithmetic
  import opened Time
  import opened LoopModel

  /** Timestamps a 64-bit program can hold, and no negative durations. */
  predicate Sane(file: seq<Packet>) {
    forall k :: 0 <= k < |file| && file[k].pts != NOPTS ==> file[k].pts > NOPTS && file[k].duration >= 0
  }

  predicate HasPts(file: seq<Packet>) {
    exists k :: 0 <= k < |file| && file[k].pts != NOPTS
  }

  /** lo is the least pts, hi the greatest end of the packets with a pts. */
  ghost predicate Extent(file: seq<Packet>, lo: int, hi: int) {
    && (exists k :: 0 <= k < |file| && file[k].pts != NOPTS && file[k].pts == lo)
    && (exists k :: 0 <= k < |file| && file[k].pts != NOPTS && file[k].pts + file[k].duration == hi)
    && forall k :: 0 <= k < |file| && file[k].pts != NOPTS ==> lo <= file[k].pts && file[k].pts + file[k].duration <= hi
  }

  function Shift(p: Packet, shift: int): Packet {
    p.(pts := if p.pts != NOPTS then p.pts + shift else p.pts, dts := if p.dts != NOPTS then p.dts + shift else p.dts)
  }

  /** A pass shifts every timestamp by the duration it began with. */
  lemma {:induction false} PassShifts(d: Demux, file: seq<Packet>, j: nat)
    requires j < |file|
    ensures Pass(d, file).1[j] == Shift(file[j], d.duration)
    ensures Pass(d, file).0.duration == d.duration
    decreases |file|
  {
    if file[1..] != [] {
      PassShifts(Fixup(d, file[0]).0, file[1..], if j == 0 then 0 else j - 1);
    }
  }

  function LeastPts(at: int, file: seq<Packet>, shift: int): int
    decreases |file|
  {
    if file == [] then at
    else
      var p := file[0];
      LeastPts(if p.pts == NOPTS || (at != NOPTS && at <= p.pts + shift) then at else p.pts + shift, file[1..], shift)
  }

  function GreatestEnd(at: int, file: seq<Packet>, shift: int): int
    decreases |file|
  {
    if file == [] then at
    else
      var p := file[0];
      GreatestEnd(if p.pts == NOPTS || (at != NOPTS && at >= p.pts + p.duration + shift) then at else p.pts + p.duration + shift,
                  file[1..], shift)
  }

  lemma {:induction false} PassBounds(d: Demux, file: seq<Packet>)
    ensures Pass(d, file).0 == Demux(d.duration, LeastPts(d.minPts, file, d.duration), GreatestEnd(d.maxPts, file, d.duration))
    decreases |file|
  {
    if file != [] {
      PassBounds(Fixup(d, file[0]).0, file[1..]);
    }
  }

  /** The running minimum is the start value or the least shifted pts, whichever is less. */
  lemma {:induction false} LeastIs(at: int, file: seq<Packet>, shift: int)
    requires Sane(file) && shift >= 0 && at >= NOPTS
    ensures var m := LeastPts(at, file, shift);
            && m >= NOPTS
            && (at != NOPTS ==> NOPTS < m <= at)
            && (forall k :: 0 <= k < |file| && file[k].pts != NOPTS ==> NOPTS < m <= file[k].pts + shift)
            && (m == at || exists k :: 0 <= k < |file| && file[k].pts != NOPTS && m == file[k].pts + shift)
    decreases |file|
  {
    if file != [] {
      var p := file[0];
      var at' := if p.pts == NOPTS || (at != NOPTS && at <= p.pts + shift) then at else p.pts + shift;
      LeastIs(at', file[1..], shift);
      var m := LeastPts(at', file[1..], shift);
      assert forall k :: 1 <= k < |file| ==> file[1..][k - 1] == file[k];
      if m != at && m != at' {
        var k :| 0 <= k < |file[1..]| && file[1..][k].pts != NOPTS && m == file[1..][k].pts + shift;
        assert file[k + 1] == file[1..][k];
      }
    }
  }

  lemma {:induction false} GreatestIs(at: int, file: seq<Packet>, shift: int)
    requires Sane(file) && shift >= 0 && at >= NOPTS
    ensures var m := GreatestEnd(at, file, shift);
            && m >= at
            && (forall k :: 0 <= k < |file| && file[k].pts != NOPTS ==> file[k].pts + file[k].duration + shift <= m)
            && (m == at || exists k :: 0 <= k < |file| && file[k].pts != NOPTS && m == file[k].pts + file[k].duration + shift)
    decreases |file|
  {
    if file != [] {
      var p := file[0];
      var e := p.pts + p.duration + shift;
      var at' := if p.pts == NOPTS || (at != NOPTS && at >= e) then at else e;
      GreatestIs(at', file[1..], shift);
      var m := GreatestEnd(at', file[1..], shift);
      assert forall k :: 1 <= k < |file| ==> file[1..][k - 1] == file[k];
      if m != at && m != at' {
        var k :| 0 <= k < |file[1..]| && file[1..][k].pts != NOPTS && m == file[1..][k].pts + file[1..][k].duration + shift;
        assert file[k + 1] == file[1..][k];
      }
    }
  }

  /** The first pass measures the file. */
  lemma FirstPass(file: seq<Packet>, lo: int, hi: int)
    requires Sane(file) && Extent(file, lo, hi)
    ensures Pass(Start(), file).0 == Demux(0, lo, hi)
  {
    PassBounds(Start(), file);
    LeastIs(NOPTS, file, 0);
    GreatestIs(NOPTS, file, 0);
  }

  /** A later pass, shifted, moves the end and leaves the start. */
  lemma LaterPass(file: seq<Packet>, lo: int, hi: int, shift: nat, end: int)
    requires Sane(file) && Extent(file, lo, hi) && end <= hi + shift && lo <= end
    ensures Pass(Demux(shift, lo, end), file).0 == Demux(shift, lo, hi + shift)
  {
    PassBounds(Demux(shift, lo, end), file);
    LeastIs(lo, file, shift);
    GreatestIs(end, file, shift);
  }

  /** Although minimum and maximum are updated from already shifted values, the k-th pass
      begins with a shift of exactly k file lengths. */
  lemma {:induction false} PassStart(file: seq<Packet>, k: nat, lo: int, hi: int)
    requires Sane(file) && Extent(file, lo, hi)
    ensures lo <= hi
    ensures Before(file, k).duration == k * (hi - lo)
    ensures k > 0 ==> Before(file, k) == Demux(k * (hi - lo), lo, lo + k * (hi - lo))
  {
    var length := hi - lo;
    if k == 1 {
      FirstPass(file, lo, hi);
    } else if k > 1 {
      PassStart(file, k - 1, lo, hi);
      var shift := (k - 1) * length;
      MulNonNegative(k - 1, length);
      MulNonNegative(k - 2, length);
      assert shift + length == k * length;
      assert lo + shift == hi + (k - 2) * length;
      LaterPass(file, lo, hi, shift, lo + shift);
    }
  }

  /** Pass k shifts every timestamp of the file by exactly k file lengths. */
  lemma LoopTiling(file: seq<Packet>, k: nat, j: nat, lo: int, hi: int)
    requires Sane(file) && Extent(file, lo, hi) && j < |file|
    ensures PassOutput(file, k)[j] == Shift(file[j], k * (hi - lo))
  {
    PassStart(file, k, lo, hi);
    PassShifts(Before(file, k), file, j);
  }

  /** Successive passes never overlap: every packet of pass k ends before any of pass k + 1 starts. */
  lemma PassesDisjoint(file: seq<Packet>, k: nat, i: nat, j: nat, lo: int, hi: int)
    requires Sane(file) && Extent(file, lo, hi) && i < |file| && j < |file|
    requires file[i].pts != NOPTS && file[j].pts != NOPTS
    ensures var p, q := PassOutput(file, k)[i], PassOutput(file, k + 1)[j];
            p.pts + p.duration <= q.pts
  {
    LoopTiling(file, k, i, lo, hi);
    LoopTiling(file, k + 1, j, lo, hi);
    assert (k + 1) * (hi - lo) == k * (hi - lo) + (hi - lo);
  }

  /** Every file with a timestamp has an extent; one without is never shifted. */
  lemma {:induction false} ExtentExists(file: seq<Packet>) returns (lo: int, hi: int)
    requires Sane(file)
    ensures HasPts(file) ==> Extent(file, lo, hi)
  {
    lo, hi := LeastPts(NOPTS, file, 0), GreatestEnd(NOPTS, file, 0);
    LeastIs(NOPTS, file, 0);
    GreatestIs(NOPTS, file, 0);
  }

  /** In a file without a timestamp there is nothing to shift, and every pass is as the first. */
  lemma {:induction false} NeverShifted(file: seq<Packet>, k: nat)
    requires forall j :: 0 <= j < |file| ==> file[j].pts == NOPTS
    ensures Before(file, k) == Start() && PassOutput(file, k) == file
  {
    if k > 0 {
      NeverShifted(file, k - 1);
    }
    PassBounds(Start(), file);
    NoBounds(NOPTS, file, 0);
    forall j | 0 <= j < |file|
      ensures Pass(Start(), file).1[j] == file[j]
    {
      PassShifts(Start(), file, j);
    }
  }

  lemma {:induction false} NoBounds(at: int, file: seq<Packet>, shift: int)
    requires forall j :: 0 <= j < |file| ==> file[j].pts == NOPTS
    ensures LeastPts(at, file, shift) == at && GreatestEnd(at, file, shift) == at
    decreases |file|
  {
    if file != [] {
      NoBounds(at, file[1..], shift);
    }
  }
}

module LoopDemuxer {
  import opened Time
  import opened LoopModel

  class Demuxer {
    var duration: int
    var minPts: int
    var maxPts: int
    var loop: int

    ghost function State(): Demux
      reads this
    {
      Demux(duration, minPts, maxPts)
    }

    constructor (loop: int)
      ensures State() == Start() && this.loop == loop
    {
      duration, minPts, maxPts := 0, NOPTS, NOPTS;
      this.loop := loop;
    }

    method SeekToStart()
      modifies this
      ensures State() == Rewind(old(State()))
      ensures loop == if old(loop) > 0 then old(loop) - 1 else old(loop)
    {
      if maxPts != NOPTS {
        var min := if minPts == NOPTS then 0 else minPts;
        duration := maxPts - min;
      }
      if loop > 0 {
        loop := loop - 1;
      }
    }

    method TsFixup(pkt: Packet) returns (out: Packet)
      modifies this`minPts, this`maxPts
      ensures (State(), out) == Fixup(old(State()), pkt)
    {
      out := pkt;
      if out.pts != NOPTS {
        out := out.(pts := out.pts + duration);
        if maxPts == NOPTS || maxPts < out.pts + out.duration {
          maxPts := out.pts + out.duration;
        }
        if minPts == NOPTS || minPts > out.pts {
          minPts := out.pts;
        }
      }
      if out.dts != NOPTS {
        out := out.(dts := out.dts + duration);
      }
    }
  }
}
