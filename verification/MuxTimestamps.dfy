/** Timestamp repair before muxing: write_packet of fftools/ffmpeg_mux.c and
output_write_packet_copy of fftools/ffplay.c. Packets are already in the stream's time base. */
module MuxTimestamps {
  import opened Time
  import opened Wrappers

  datatype Packet = Packet(pts: int, dts: int, duration: int)

  /** No 64-bit timestamp lies below the sentinel. */
  predicate InRange(p: Packet) {
    p.pts >= NOPTS && p.dts >= NOPTS
  }

  // ---- write_packet ----

  /** Output format and options: whether it has timestamps, accepts equal ones, whether the
      stream is audio, video or subtitles, and whether a repair is an error. */
  datatype Policy = Policy(noTimestamps: bool, nonStrict: bool, avs: bool, exitOnError: bool)

  function Min(a: int, b: int): int {
    if a < b then a else b
  }

  function Max(a: int, b: int): int {
    if a > b then a else b
  }

  function Middle(a: int, b: int, c: int): int {
    a + b + c - Min(a, Min(b, c)) - Max(a, Max(b, c))
  }

  /** A dts after the pts is replaced by a guess for both. */
  function Guess(last: int, p: Packet): Packet {
    if p.dts != NOPTS && p.pts != NOPTS && p.dts > p.pts then
      p.(pts := Middle(p.pts, p.dts, last + 1), dts := Middle(p.pts, p.dts, last + 1))
    else p
  }

  /** The least dts allowed after `last`. */
  function Least(t: Policy, last: int): int {
    if t.nonStrict then last else last + 1
  }

  predicate TooEarly(t: Policy, last: int, p: Packet) {
    t.avs && p.dts != NOPTS && last != NOPTS && p.dts < Least(t, last)
  }

  function Repair(t: Policy, last: int, p: Packet): Option<Packet> {
    if t.noTimestamps then Some(p)
    else
      var g := Guess(last, p);
      if !TooEarly(t, last, g) then Some(g)
      else if t.exitOnError then None
      else Some(g.(pts := if g.pts >= g.dts then Max(g.pts, Least(t, last)) else g.pts, dts := Least(t, last)))
  }

  /** The packets written until the end of input or the first error. */
  function Run(t: Policy, last: int, packets: seq<Packet>): (r: seq<Packet>)
    ensures |r| <= |packets|
    decreases |packets|
  {
    if packets == [] then []
    else
      match Repair(t, last, packets[0])
      case None => []
      case Some(p) => [p] + Run(t, p.dts, packets[1..])
  }

  predicate Repairing(t: Policy) {
    !t.noTimestamps && t.avs
  }

  /** One packet: after the last one, and not to be shown before it is decoded. */
  lemma RepairValid(t: Policy, last: int, p: Packet)
    requires Repairing(t) && InRange(p) && last >= NOPTS && Repair(t, last, p).Some?
    ensures var r := Repair(t, last, p).value;
            && InRange(r)
            && (r.dts == NOPTS <==> p.dts == NOPTS) && (r.pts == NOPTS <==> p.pts == NOPTS)
            && (p.dts != NOPTS && p.pts != NOPTS ==> r.pts >= r.dts)
            && (p.dts != NOPTS && last != NOPTS ==> r.dts >= Least(t, last))
  {
  }

  /** The guess for a dts after its pts is the place between the two nearest to where the next dts
      would be expected. */
  lemma GuessIsNearest(last: int, p: Packet, other: int)
    requires p.dts != NOPTS && p.pts != NOPTS && p.dts > p.pts && p.pts <= other <= p.dts
    ensures var g := Guess(last, p);
            && g.pts == g.dts && p.pts <= g.dts <= p.dts
            && Abs(g.dts - (last + 1)) <= Abs(other - (last + 1))
  {
  }

  /** The repair of a packet in order moves its timestamps no further than it must: no valid packet
      at or after it has smaller ones. */
  lemma RepairIsLeast(t: Policy, last: int, p: Packet, q: Packet)
    requires Repairing(t) && !t.exitOnError && last != NOPTS
    requires p.dts != NOPTS && p.pts != NOPTS && p.dts <= p.pts
    requires q.dts >= p.dts && q.pts >= p.pts && q.dts >= Least(t, last) && q.pts >= q.dts
    ensures var r := Repair(t, last, p).value; p.dts <= r.dts <= q.dts && p.pts <= r.pts <= q.pts
  {
  }

  /** A packet passes unchanged exactly if it needs no repair. */
  lemma UnchangedIff(t: Policy, last: int, p: Packet)
    requires Repairing(t)
    ensures Repair(t, last, p) == Some(p) <==>
              && (p.dts != NOPTS && p.pts != NOPTS ==> p.dts <= p.pts)
              && (p.dts != NOPTS && last != NOPTS ==> if t.nonStrict then last <= p.dts else last < p.dts)
  {
  }

  /** What is left alone and what is refused: a format without timestamps takes every packet as it is,
      a stream that is no audio, video or subtitle stream is repaired in the order of pts and dts only,
      and a repair of the order of dts is an error exactly where that is asked for. */
  lemma RefusedIff(t: Policy, last: int, p: Packet)
    ensures t.noTimestamps ==> Repair(t, last, p) == Some(p)
    ensures !t.noTimestamps && !t.avs ==> Repair(t, last, p) == Some(Guess(last, p))
    ensures Repair(t, last, p).None? <==>
              && t.exitOnError && Repairing(t) && p.dts != NOPTS && last != NOPTS
              && var dts := Guess(last, p).dts;
                 dts != NOPTS && if t.nonStrict then dts < last else dts <= last
  {
  }

  predicate AllInRange(packets: seq<Packet>) {
    forall k :: 0 <= k < |packets| ==> InRange(packets[k])
  }

  /** The first packet written that carries a dts, and all before it since the start too. */
  lemma {:induction false} AfterLast(t: Policy, last: int, packets: seq<Packet>, k: nat)
    requires Repairing(t) && AllInRange(packets) && last > NOPTS && k < |Run(t, last, packets)|
    requires forall i :: 0 <= i <= k ==> packets[i].dts != NOPTS
    ensures Run(t, last, packets)[k].dts >= Least(t, last)
    decreases k
  {
    RepairValid(t, last, packets[0]);
    if k > 0 {
      AfterLast(t, Repair(t, last, packets[0]).value.dts, packets[1..], k - 1);
    }
  }

  /** Over any run, among packets not separated by one without dts, the dts written strictly
      increase (or do not decrease, where the format allows equal ones). */
  lemma {:induction false} DtsIncrease(t: Policy, last: int, packets: seq<Packet>, j: nat, k: nat)
    requires Repairing(t) && AllInRange(packets) && last >= NOPTS && j < k < |Run(t, last, packets)|
    requires forall i :: j <= i <= k ==> packets[i].dts != NOPTS
    ensures var out := Run(t, last, packets);
            if t.nonStrict then out[j].dts <= out[k].dts else out[j].dts < out[k].dts
    decreases k
  {
    RepairValid(t, last, packets[0]);
    var p := Repair(t, last, packets[0]).value;
    if j == 0 {
      AfterLast(t, p.dts, packets[1..], k - 1);
    } else {
      DtsIncrease(t, p.dts, packets[1..], j - 1, k - 1);
    }
  }

  /** And no written packet has its pts before its dts. */
  lemma {:induction false} PtsNotBeforeDts(t: Policy, last: int, packets: seq<Packet>, k: nat)
    requires Repairing(t) && AllInRange(packets) && last >= NOPTS && k < |Run(t, last, packets)|
    ensures var p := Run(t, last, packets)[k]; p.dts != NOPTS && p.pts != NOPTS ==> p.dts <= p.pts
    decreases k
  {
    RepairValid(t, last, packets[0]);
    if k > 0 {
      PtsNotBeforeDts(t, Repair(t, last, packets[0]).value.dts, packets[1..], k - 1);
    }
  }

  /** A sequence that already obeys these rules. */
  predicate ValidSequence(t: Policy, last: int, packets: seq<Packet>)
    decreases |packets|
  {
    packets != [] ==>
      && (packets[0].dts != NOPTS && packets[0].pts != NOPTS ==> packets[0].dts <= packets[0].pts)
      && !TooEarly(t, last, packets[0])
      && ValidSequence(t, packets[0].dts, packets[1..])
  }

  /** Exactly the valid sequences are written unchanged. */
  lemma {:induction false} ValidUnchanged(t: Policy, last: int, packets: seq<Packet>)
    requires Repairing(t)
    ensures Run(t, last, packets) == packets <==> ValidSequence(t, last, packets)
    decreases |packets|
  {
    if packets != [] {
      UnchangedIff(t, last, packets[0]);
      ValidUnchanged(t, packets[0].dts, packets[1..]);
      match Repair(t, last, packets[0])
      case None =>
      case Some(p) =>
        assert ([p] + Run(t, p.dts, packets[1..]))[1..] == Run(t, p.dts, packets[1..]);
    }
  }

  // ---- across packets without dts ----

  /** The dts of `packets` follow one another from `prev` on, whatever lies between them. */
  predicate Ordered(t: Policy, prev: int, packets: seq<Packet>)
    decreases |packets|
  {
    packets != [] ==>
      if packets[0].dts == NOPTS then Ordered(t, prev, packets[1..])
      else (prev == NOPTS || packets[0].dts >= Least(t, prev)) && Ordered(t, packets[0].dts, packets[1..])
  }

  /** Which is what it says: any two dts are in order. */
  lemma {:induction false} OrderedMeans(t: Policy, prev: int, packets: seq<Packet>)
    requires AllInRange(packets) && prev >= NOPTS
    ensures Ordered(t, prev, packets) <==>
              && (forall k :: 0 <= k < |packets| && prev != NOPTS && packets[k].dts != NOPTS ==>
                    packets[k].dts >= Least(t, prev))
              && forall j, k :: 0 <= j < k < |packets| && packets[j].dts != NOPTS && packets[k].dts != NOPTS ==>
                   packets[k].dts >= Least(t, packets[j].dts)
    decreases |packets|
  {
    if packets != [] {
      var rest := packets[1..];
      assert forall k :: 0 <= k < |rest| ==> rest[k] == packets[k + 1];
      assert forall k :: 0 < k < |packets| ==> packets[k] == rest[k - 1];
      OrderedMeans(t, if packets[0].dts == NOPTS then prev else packets[0].dts, rest);
    }
  }

  /** What a packet that follows a gap is written with as its dts. */
  function Earliest(p: Packet): int {
    if p.pts != NOPTS && p.pts < p.dts then p.pts else p.dts
  }

  /** Input for which every packet that follows a gap, a packet without dts, comes after `prev`,
      the last dts written before it; `last` is the one the muxer remembers. */
  predicate GapsFine(t: Policy, prev: int, last: int, packets: seq<Packet>)
    decreases |packets|
  {
    packets != [] && Repair(t, last, packets[0]).Some? ==>
      var p := packets[0];
      if p.dts == NOPTS then GapsFine(t, prev, NOPTS, packets[1..])
      else
        var written := Repair(t, last, p).value.dts;
        && (last == NOPTS && prev != NOPTS ==> Earliest(p) >= Least(t, prev))
        && GapsFine(t, written, written, packets[1..])
  }

  /** Over any run, all dts written are in order exactly if that holds of the input. */
  lemma {:induction false} OrderedIff(t: Policy, prev: int, last: int, packets: seq<Packet>)
    requires Repairing(t) && AllInRange(packets) && prev >= NOPTS && (last == NOPTS || last == prev)
    ensures Ordered(t, prev, Run(t, last, packets)) <==> GapsFine(t, prev, last, packets)
    decreases |packets|
  {
    if packets != [] && Repair(t, last, packets[0]).Some? {
      var p, r := packets[0], Repair(t, last, packets[0]).value;
      RepairValid(t, last, p);
      if p.dts == NOPTS {
        OrderedIff(t, prev, NOPTS, packets[1..]);
      } else {
        assert last == NOPTS ==> r.dts == Earliest(p);
        OrderedIff(t, r.dts, r.dts, packets[1..]);
      }
      assert Run(t, last, packets)[1..] == Run(t, r.dts, packets[1..]);
    }
  }

  /** Pair by pair, from the start of a stream: two dts written are never out of order exactly if
      no gap lets one go back. */
  lemma DtsInOrderIff(t: Policy, packets: seq<Packet>)
    requires Repairing(t) && AllInRange(packets)
    ensures var out := Run(t, NOPTS, packets);
            (forall j, k :: 0 <= j < k < |out| && out[j].dts != NOPTS && out[k].dts != NOPTS ==>
               out[k].dts >= Least(t, out[j].dts))
            <==> GapsFine(t, NOPTS, NOPTS, packets)
  {
    OrderedIff(t, NOPTS, NOPTS, packets);
    RunInRange(t, NOPTS, packets);
    OrderedMeans(t, NOPTS, Run(t, NOPTS, packets));
  }

  lemma {:induction false} RunInRange(t: Policy, last: int, packets: seq<Packet>)
    requires Repairing(t) && AllInRange(packets) && last >= NOPTS
    ensures AllInRange(Run(t, last, packets))
    decreases |packets|
  {
    if packets != [] && Repair(t, last, packets[0]).Some? {
      RepairValid(t, last, packets[0]);
      RunInRange(t, Repair(t, last, packets[0]).value.dts, packets[1..]);
    }
  }

  /** A packet without dts makes the muxer forget the last one: the dts may go back after it. */
  lemma MissingDtsForgets()
    ensures var t := Policy(false, false, true, false);
            var packets := [Packet(10, 10, 1), Packet(11, NOPTS, 1), Packet(5, 5, 1)];
            Run(t, NOPTS, packets) == packets && !GapsFine(t, NOPTS, NOPTS, packets)
  {
    var t := Policy(false, false, true, false);
    var packets := [Packet(10, 10, 1), Packet(11, NOPTS, 1), Packet(5, 5, 1)];
    assert packets[1..] == [Packet(11, NOPTS, 1), Packet(5, 5, 1)];
    assert packets[1..][1..] == [Packet(5, 5, 1)];
    assert ValidSequence(t, 11, []);
    ValidUnchanged(t, NOPTS, packets);
    assert packets[1..][1..][1..] == [];
    assert ValidSequence(t, NOPTS, [Packet(5, 5, 1)]);
    assert ValidSequence(t, 10, [Packet(11, NOPTS, 1), Packet(5, 5, 1)]);
    DtsInOrderIff(t, packets);
    assert packets[2].dts < packets[0].dts;
  }

  // ---- output_write_packet_copy ----

  /** A packet of which only one timestamp is set gets the other from it. */
  function Fill(p: Packet): Packet {
    var q := if p.dts == NOPTS && p.pts != NOPTS then p.(dts := p.pts) else p;
    if q.pts == NOPTS && q.dts != NOPTS then q.(pts := q.dts) else q
  }

  /** The packet as handed to the muxer; `last` is None where no last dts is kept. */
  function CopyPacket(last: Option<int>, p: Packet): Packet {
    var q := Fill(p);
    if last.Some? && q.dts != NOPTS && last.value != NOPTS && q.dts <= last.value then
      var bump := last.value + (if q.duration > 0 then q.duration else 1) - q.dts;
      q.(dts := q.dts + bump, pts := if q.pts != NOPTS then q.pts + bump else q.pts)
    else q
  }

  /** What came of a packet: the header could not be written, so that the muxer was not called;
      or the muxer refused or took it. */
  datatype Answer = NoHeader | Refused | Taken

  /** A packet for output stream `idx`. */
  datatype Write = Write(idx: nat, packet: Packet, answer: Answer)

  const BLANK := Packet(NOPTS, NOPTS, 0)

  /** The packet after av_interleaved_write_frame, which takes what is in it and leaves it blank,
      also where it fails. */
  function AfterCall(q: Packet, answer: Answer): Packet {
    if answer.NoHeader? then q else BLANK
  }

  function LastOf(lasts: seq<int>, idx: nat): Option<int> {
    if idx < |lasts| then Some(lasts[idx]) else None
  }

  function Remember(lasts: seq<int>, idx: nat, dts: int, answer: Answer): (r: seq<int>)
    ensures |r| == |lasts|
  {
    if idx < |lasts| && dts != NOPTS && answer.Taken? then lasts[idx := dts] else lasts
  }

  /** The last dts of every stream: the code looks at the packet after the call. */
  function AfterWrite(lasts: seq<int>, w: Write): (r: seq<int>) {
    Remember(lasts, w.idx, AfterCall(CopyPacket(LastOf(lasts, w.idx), w.packet), w.answer).dts, w.answer)
  }

  function Handed(last: Option<int>, w: Write): Option<Packet> {
    if w.answer.NoHeader? then None else Some(CopyPacket(last, w.packet))
  }

  /** What the muxer is handed, write by write. */
  function CopyRun(lasts: seq<int>, writes: seq<Write>): (r: seq<Option<Packet>>)
    ensures |r| == |writes|
    decreases |writes|
  {
    if writes == [] then []
    else [Handed(LastOf(lasts, writes[0].idx), writes[0])] + CopyRun(AfterWrite(lasts, writes[0]), writes[1..])
  }

  predicate Timed(p: Packet) {
    p.pts != NOPTS || p.dts != NOPTS
  }

  /** The copy moves pts and dts together: once both are filled in, their distance is kept. */
  lemma CopyKeepsDistance(last: Option<int>, p: Packet)
    requires InRange(p) && (last.Some? ==> last.value >= NOPTS)
    ensures var q := CopyPacket(last, p);
            && InRange(q)
            && (Timed(p) ==> q.dts != NOPTS)
            && (p.pts != NOPTS && p.dts != NOPTS ==> q.pts - q.dts == p.pts - p.dts)
            && (Timed(p) && (p.pts == NOPTS || p.dts == NOPTS) ==> q.pts == q.dts)
            && (Timed(p) && last.Some? && last.value != NOPTS ==> q.dts > last.value)
  {
  }

  /** A packet with a timestamp passes the copy filled in and otherwise unchanged exactly if its dts is
      after the last; otherwise it is moved behind the last by its own duration. */
  lemma CopyUnchangedIff(last: Option<int>, p: Packet)
    requires Timed(p)
    ensures var dts := if p.dts != NOPTS then p.dts else p.pts;
            var filled := p.(dts := dts, pts := if p.pts != NOPTS then p.pts else dts);
            && (CopyPacket(last, p) == filled <==> last.None? || last.value == NOPTS || last.value < dts)
            && (CopyPacket(last, p) != filled ==> CopyPacket(last, p).dts == last.value + Max(p.duration, 1))
  {
  }

  /** Nothing is ever remembered: whatever the muxer answers, the packet is blank by then. */
  lemma NothingKept(lasts: seq<int>, w: Write)
    ensures AfterWrite(lasts, w) == lasts
  {
  }

  function NoLasts(n: nat): seq<int> {
    seq(n, _ => NOPTS)
  }

  /** So over every run each packet is handed over with its timestamps filled in, and not moved. */
  lemma {:induction false} FilledOnly(n: nat, writes: seq<Write>, k: nat)
    requires k < |writes|
    ensures CopyRun(NoLasts(n), writes)[k] == if writes[k].answer.NoHeader? then None else Some(Fill(writes[k].packet))
    decreases k
  {
    NothingKept(NoLasts(n), writes[0]);
    if k > 0 {
      FilledOnly(n, writes[1..], k - 1);
    }
  }

  /** The muxer is called with a packet of stream `idx` that has a timestamp. */
  predicate Reaches(w: Write, idx: nat) {
    w.idx == idx && !w.answer.NoHeader? && Timed(w.packet)
  }

  function InputDts(p: Packet): int {
    if p.dts != NOPTS then p.dts else p.pts
  }

  /** The input of stream `idx` in one pass: each dts, or pts where there is none, is after the one
      before it, of which `prev` is the first. */
  predicate Increasing(prev: Option<int>, writes: seq<Write>, idx: nat)
    decreases |writes|
  {
    writes != [] ==>
      var dts := InputDts(writes[0].packet);
      if Reaches(writes[0], idx) then (prev.Some? ==> prev.value < dts) && Increasing(Some(dts), writes[1..], idx)
      else Increasing(prev, writes[1..], idx)
  }

  lemma {:induction false} IncreasingMeans(prev: Option<int>, writes: seq<Write>, idx: nat)
    ensures Increasing(prev, writes, idx) <==>
              && (forall k :: 0 <= k < |writes| && prev.Some? && Reaches(writes[k], idx) ==>
                    prev.value < InputDts(writes[k].packet))
              && forall j, k :: 0 <= j < k < |writes| && Reaches(writes[j], idx) && Reaches(writes[k], idx) ==>
                   InputDts(writes[j].packet) < InputDts(writes[k].packet)
    decreases |writes|
  {
    if writes != [] {
      var rest := writes[1..];
      assert forall k :: 0 <= k < |rest| ==> rest[k] == writes[k + 1];
      assert forall k :: 0 < k < |writes| ==> writes[k] == rest[k - 1];
      IncreasingMeans(if Reaches(writes[0], idx) then Some(InputDts(writes[0].packet)) else prev, rest, idx);
    }
  }

  predicate HasDts(o: Option<Packet>) {
    o.Some? && o.value.dts != NOPTS
  }

  /** From the start, the dts the muxer is handed for a stream strictly increase exactly if those of
      its input do. */
  lemma CopyIncreasesIff(n: nat, writes: seq<Write>, idx: nat)
    ensures var out := CopyRun(NoLasts(n), writes);
            (forall j, k :: 0 <= j < k < |out| && writes[j].idx == writes[k].idx == idx && HasDts(out[j]) && HasDts(out[k]) ==>
               out[j].value.dts < out[k].value.dts)
            <==> Increasing(None, writes, idx)
  {
    var out := CopyRun(NoLasts(n), writes);
    forall k | 0 <= k < |writes|
      ensures HasDts(out[k]) <==> !writes[k].answer.NoHeader? && Timed(writes[k].packet)
      ensures HasDts(out[k]) ==> out[k].value.dts == InputDts(writes[k].packet)
    {
      FilledOnly(n, writes, k);
    }
    IncreasingMeans(None, writes, idx);
    hide CopyRun;
  }

  /** An input whose dts go back: the second packet is handed over at 5 where one bumped behind the
      first would be at 11. */
  lemma CopyGoesBack(answer: Answer)
    requires !answer.NoHeader?
    ensures var writes := [Write(0, Packet(10, 10, 1), Taken), Write(0, Packet(5, 5, 1), answer)];
            && CopyRun(NoLasts(1), writes) == [Some(Packet(10, 10, 1)), Some(Packet(5, 5, 1))]
            && !Increasing(None, writes, 0)
            && CopyPacket(Some(10), writes[1].packet) == Packet(11, 11, 1)
  {
    var writes := [Write(0, Packet(10, 10, 1), Taken), Write(0, Packet(5, 5, 1), answer)];
    FilledOnly(1, writes, 0);
    FilledOnly(1, writes, 1);
    IncreasingMeans(None, writes, 0);
    assert Reaches(writes[0], 0) && Reaches(writes[1], 0);
    hide CopyRun, Increasing;
  }
}

module MuxWriters {
  import opened Time
  import opened MuxTimestamps
  import opened Wrappers

  /** The per-stream state of the muxer. */
  class MuxStream {
    var lastMuxDts: int

    constructor ()
      ensures lastMuxDts == NOPTS
    {
      lastMuxDts := NOPTS;
    }

    /** The timestamp part of write_packet. */
    method WritePacket(t: Policy, pkt: Packet) returns (r: Option<Packet>)
      modifies this
      ensures r == Repair(t, old(lastMuxDts), pkt)
      ensures lastMuxDts == if r.Some? then r.value.dts else old(lastMuxDts)
    {
      var p := pkt;
      if !t.noTimestamps {
        if p.dts != NOPTS && p.pts != NOPTS && p.dts > p.pts {
          var lo := Min(p.pts, Min(p.dts, lastMuxDts + 1));
          var hi := Max(p.pts, Max(p.dts, lastMuxDts + 1));
          var guess := p.pts + p.dts + lastMuxDts + 1 - lo - hi;
          p := p.(pts := guess, dts := guess);
        }
        if t.avs && p.dts != NOPTS && lastMuxDts != NOPTS {
          var max := lastMuxDts + if t.nonStrict then 0 else 1;
          if p.dts < max {
            if t.exitOnError {
              return None;
            }
            if p.pts >= p.dts {
              p := p.(pts := Max(p.pts, max));
            }
            p := p.(dts := max);
          }
        }
      }
      lastMuxDts := p.dts;
      return Some(p);
    }
  }

  /** The stream-copy output of the player. */
  class OutputState {
    const lastDts: array<int>

    constructor (nbStreams: nat)
      ensures fresh(lastDts) && lastDts[..] == NoLasts(nbStreams)
    {
      lastDts := new int[nbStreams](_ => NOPTS);
    }

    /** `handed` is what the muxer gets, if it is called. */
    method WritePacketCopy(w: Write) returns (handed: Option<Packet>)
      modifies lastDts
      ensures handed == Handed(LastOf(old(lastDts[..]), w.idx), w)
      ensures lastDts[..] == AfterWrite(old(lastDts[..]), w)
    {
      hide AfterCall;
      var opkt := w.packet;
      if opkt.dts == NOPTS && opkt.pts != NOPTS {
        opkt := opkt.(dts := opkt.pts);
      }
      if opkt.pts == NOPTS && opkt.dts != NOPTS {
        opkt := opkt.(pts := opkt.dts);
      }
      var kept := w.idx < lastDts.Length;
      if kept && opkt.dts != NOPTS {
        var last := lastDts[w.idx];
        if last != NOPTS && opkt.dts <= last {
          var bump := last + (if opkt.duration > 0 then opkt.duration else 1) - opkt.dts;
          opkt := opkt.(dts := opkt.dts + bump);
          if opkt.pts != NOPTS {
            opkt := opkt.(pts := opkt.pts + bump);
          }
        }
      }
      handed := if w.answer.NoHeader? then None else Some(opkt);
      opkt := AfterCall(opkt, w.answer);
      if kept && opkt.dts != NOPTS && w.answer.Taken? {
        lastDts[w.idx] := opkt.dts;
      }
    }
  }
}
