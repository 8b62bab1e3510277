/** The frame ring of fftools/ffplay.c: one writer, one reader, and with `keepLast` the frame
shown last kept in its slot. The indices move outside the mutex, so every assignment is a
step of its own and the two threads interleave between any of them.
 */
module FrameRing {
  import opened Arithmetic

  datatype Slot = Empty | Filled(frame: int)

  datatype Ring = Ring(slots: seq<Slot>, rindex: nat, windex: nat, size: nat, shown: nat, keepLast: bool)

  /** The writer: outside; filling slots[windex] after frame_queue_peek_writable; within
      frame_queue_push, between the move of windex and that of size. */
  datatype Writer = WOutside | Filling | WAdvanced

  /** The reader: outside; after finding an unshown frame; within frame_queue_next, after
      clearing slots[rindex], and between the moves of rindex and size. */
  datatype Reader = ROutside | Peeked | Cleared | RAdvanced

  /** `pushed` records the frames in push order; `taken` counts the moves of rindex. */
  datatype State = State(ring: Ring, writer: Writer, reader: Reader, pushed: seq<int>, taken: nat)

  datatype Step = PeekWritable | Fill(slot: Slot) | PushAdvance | PushCommit
                | PeekReadable | LeavePeek | NextShow | NextClear | NextAdvance | NextCommit

  function Init(maxSize: nat, keepLast: bool): State {
    State(Ring(seq(maxSize, _ => Empty), 0, 0, 0, 0, keepLast), WOutside, ROutside, [], 0)
  }

  /** frame_queue_nb_remaining. */
  function Remaining(r: Ring): int {
    r.size - r.shown
  }

  function Next(index: nat, maxSize: nat): nat {
    if index + 1 == maxSize then 0 else index + 1
  }

  /** The slot of frame_queue_peek. */
  function PeekSlot(r: Ring): nat
    requires |r.slots| > 0
  {
    (r.rindex + r.shown) % |r.slots|
  }

  /** The slot of frame_queue_peek_next. */
  function PeekNextSlot(r: Ring): nat
    requires |r.slots| > 0
  {
    (r.rindex + r.shown + 1) % |r.slots|
  }

  predicate InRange(r: Ring) {
    && 0 < |r.slots|
    && r.rindex < |r.slots| && r.windex < |r.slots|
  }

  predicate Enabled(s: State, a: Step) {
    match a
    case PeekWritable => s.writer.WOutside? && s.ring.size < |s.ring.slots|
    case Fill(_) => s.writer.Filling?
    case PushAdvance => s.writer.Filling? && s.ring.windex < |s.ring.slots| && s.ring.slots[s.ring.windex].Filled?
    case PushCommit => s.writer.WAdvanced?
    case PeekReadable => s.reader.ROutside? && Remaining(s.ring) > 0
    case LeavePeek => s.reader.Peeked?
    case NextShow => s.reader.Peeked? && s.ring.keepLast && s.ring.shown == 0
    case NextClear => s.reader.Peeked? && !(s.ring.keepLast && s.ring.shown == 0)
    case NextAdvance => s.reader.Cleared?
    case NextCommit => s.reader.RAdvanced?
  }

  function Apply(s: State, a: Step): State
    requires InRange(s.ring) && Enabled(s, a)
  {
    var r := s.ring;
    match a
    case PeekWritable => s.(writer := Filling)
    case Fill(slot) => s.(ring := r.(slots := r.slots[r.windex := slot]))
    case PushAdvance =>
      s.(ring := r.(windex := Next(r.windex, |r.slots|)), writer := WAdvanced,
         pushed := s.pushed + [r.slots[r.windex].frame])
    case PushCommit => s.(ring := r.(size := r.size + 1), writer := WOutside)
    case PeekReadable => s.(reader := Peeked)
    case LeavePeek => s.(reader := ROutside)
    case NextShow => s.(ring := r.(shown := 1), reader := ROutside)
    case NextClear => s.(ring := r.(slots := r.slots[r.rindex := Empty]), reader := Cleared)
    case NextAdvance => s.(ring := r.(rindex := Next(r.rindex, |r.slots|)), reader := RAdvanced, taken := s.taken + 1)
    case NextCommit => s.(ring := r.(size := if r.size > 0 then r.size - 1 else 0), reader := ROutside)
  }

  // ---- the invariant ----

  function Max(s: State): nat {
    |s.ring.slots|
  }

  function SlotOf(k: nat, n: nat): (r: nat)
    requires n > 0
    ensures r < n
  {
    k % n
  }

  /** Frame k (in push order) sits in slot k modulo the ring size. */
  ghost predicate Holds(s: State, k: nat)
    requires InRange(s.ring) && k < |s.pushed|
  {
    s.ring.slots[SlotOf(k, Max(s))] == Filled(s.pushed[k])
  }

  ghost predicate Inv(s: State) {
    && InRange(s.ring)
    && s.ring.windex == SlotOf(|s.pushed|, Max(s))
    && s.ring.rindex == SlotOf(s.taken, Max(s))
    && s.ring.size == |s.pushed| - s.taken - (if s.writer.WAdvanced? then 1 else 0) + (if s.reader.RAdvanced? then 1 else 0)
    && s.taken <= |s.pushed|
    && s.ring.size <= Max(s)
    && (s.writer.Filling? || s.writer.WAdvanced? ==> s.ring.size < Max(s))
    && s.ring.shown <= 1 && (s.ring.shown == 1 ==> s.ring.keepLast)
    && s.ring.shown <= |s.pushed| - s.taken - (if s.writer.WAdvanced? then 1 else 0)
    && (s.reader.Peeked? || s.reader.Cleared? ==> Remaining(s.ring) > 0)
    && (s.reader.Cleared? || s.reader.RAdvanced? ==> s.ring.shown == (if s.ring.keepLast then 1 else 0))
    && (forall k :: s.taken + (if s.reader.Cleared? then 1 else 0) <= k < |s.pushed| ==> Holds(s, k))
  }

  lemma NextSlot(k: nat, n: nat)
    requires n > 0
    ensures Next(SlotOf(k, n), n) == SlotOf(k + 1, n)
  {
    ModNext(k, n);
  }

  lemma SlotsDistinct(a: nat, b: nat, n: nat)
    requires n > 0 && a < b < a + n
    ensures SlotOf(a, n) != SlotOf(b, n)
  {
    ModDistinct(a, b, n);
  }

  lemma InitInv(maxSize: nat, keepLast: bool)
    requires maxSize > 0
    ensures Inv(Init(maxSize, keepLast))
  {
    DivUnique(0, 0, 0, maxSize);
  }

  /** While the writer fills a slot, every frame still in the ring is in another one. */
  lemma FillingApart(s: State, k: nat)
    requires Inv(s) && s.writer.Filling? && s.taken <= k < |s.pushed|
    ensures SlotOf(k, Max(s)) != s.ring.windex
  {
    SlotsDistinct(k, |s.pushed|, Max(s));
  }

  lemma WriterInv(s: State, a: Step)
    requires Inv(s) && Enabled(s, a) && (a.PeekWritable? || a.Fill? || a.PushAdvance? || a.PushCommit?)
    ensures Inv(Apply(s, a))
  {
    hide SlotOf;
    var s' := Apply(s, a);
    if a.PushAdvance? {
      NextSlot(|s.pushed|, Max(s));
    }
    forall k | s'.taken + (if s'.reader.Cleared? then 1 else 0) <= k < |s'.pushed|
      ensures Holds(s', k)
    {
      if k < |s.pushed| {
        assert Holds(s, k);
        if s.writer.Filling? {
          FillingApart(s, k);
        }
      }
    }
  }

  lemma ReaderInv(s: State, a: Step)
    requires Inv(s) && Enabled(s, a)
    requires a.PeekReadable? || a.LeavePeek? || a.NextShow? || a.NextClear? || a.NextAdvance? || a.NextCommit?
    ensures Inv(Apply(s, a))
  {
    hide SlotOf;
    var s' := Apply(s, a);
    if a.NextAdvance? {
      NextSlot(s.taken, Max(s));
    }
    forall k | s'.taken + (if s'.reader.Cleared? then 1 else 0) <= k < |s'.pushed|
      ensures Holds(s', k)
    {
      assert Holds(s, k);
      if a.NextClear? {
        SlotsDistinct(s.taken, k, Max(s));
      }
    }
  }

  lemma StepInv(s: State, a: Step)
    requires Inv(s) && Enabled(s, a)
    ensures Inv(Apply(s, a))
  {
    hide Inv, Apply, Enabled;
    if a.PeekWritable? || a.Fill? || a.PushAdvance? || a.PushCommit? {
      WriterInv(s, a);
    } else {
      ReaderInv(s, a);
    }
  }

  ghost predicate LegalRun(s: State, steps: seq<Step>)
    requires Inv(s)
    decreases |steps|
  {
    steps != [] ==> Enabled(s, steps[0]) && (StepInv(s, steps[0]); LegalRun(Apply(s, steps[0]), steps[1..]))
  }

  ghost function Run(s: State, steps: seq<Step>): (r: State)
    requires Inv(s) && LegalRun(s, steps)
    ensures Inv(r)
    decreases |steps|
  {
    if steps == [] then s
    else
      StepInv(s, steps[0]);
      Run(Apply(s, steps[0]), steps[1..])
  }

  // ---- what holds in every reachable state ----

  /** The slots the reader may touch: the one shown last, the one it has found, the one after
      it if there are two, and the one it is clearing. */
  ghost predicate Touches(s: State, slot: nat)
    requires InRange(s.ring)
  {
    || (s.ring.shown == 1 && !s.reader.Cleared? && !s.reader.RAdvanced? && slot == s.ring.rindex)
    || (s.reader.Peeked? && (slot == s.ring.rindex || slot == PeekSlot(s.ring)))
    || (s.reader.Peeked? && Remaining(s.ring) > 1 && slot == PeekNextSlot(s.ring))
    || (s.reader.Cleared? && slot == s.ring.rindex)
  }

  /** For every interleaving, the slot being written is never one the reader may touch. */
  lemma RingSafety(maxSize: nat, keepLast: bool, steps: seq<Step>, slot: nat)
    requires maxSize > 0
    requires Inv(Init(maxSize, keepLast)) ==> LegalRun(Init(maxSize, keepLast), steps)
    ensures Inv(Init(maxSize, keepLast))
    ensures var s := Run(Init(maxSize, keepLast), steps);
            s.writer.Filling? && Touches(s, slot) ==> slot != s.ring.windex
  {
    InitInv(maxSize, keepLast);
    var s := Run(Init(maxSize, keepLast), steps);
    if s.writer.Filling? && Touches(s, slot) {
      ModAdd(s.taken, s.ring.shown, Max(s));
      ModAdd(s.taken, s.ring.shown + 1, Max(s));
      FillingApart(s, s.taken);
      if s.reader.Peeked? {
        FillingApart(s, s.taken + s.ring.shown);
        if Remaining(s.ring) > 1 {
          FillingApart(s, s.taken + s.ring.shown + 1);
        }
      }
    }
  }

  /** How many frames frame_queue_next has passed. */
  function Position(s: State): nat {
    s.taken + s.ring.shown
  }

  /** frame_queue_peek yields the frames in push order, without a gap: the one in front of the
      reader is the one at its position, and frame_queue_next moves the position by one. */
  lemma ReadInOrder(s: State)
    requires Inv(s) && s.reader.Peeked?
    ensures Position(s) < |s.pushed| && s.ring.slots[PeekSlot(s.ring)] == Filled(s.pushed[Position(s)])
    ensures Remaining(s.ring) > 1 ==>
              Position(s) + 1 < |s.pushed| && s.ring.slots[PeekNextSlot(s.ring)] == Filled(s.pushed[Position(s) + 1])
  {
    ModAdd(s.taken, s.ring.shown, Max(s));
    ModAdd(s.taken, s.ring.shown + 1, Max(s));
    assert Holds(s, Position(s));
    if Remaining(s.ring) > 1 {
      assert Holds(s, Position(s) + 1);
    }
  }

  lemma NextMovesByOne(s: State, a: Step)
    requires Inv(s) && Enabled(s, a)
    ensures Position(Apply(s, a)) == Position(s) + if a.NextShow? || a.NextAdvance? then 1 else 0
    ensures s.pushed <= Apply(s, a).pushed
  {
  }

  /** With keepLast, the frame that was in front of frame_queue_next is in slots[rindex] once it
      has returned. */
  lemma KeptAfterNext(s: State, a: Step)
    requires Inv(s) && s.ring.keepLast && Enabled(s, a) && (a.NextShow? || a.NextCommit?)
    ensures var s' := Apply(s, a);
            && s'.reader.ROutside? && s'.ring.shown == 1 && Position(s') - 1 < |s'.pushed|
            && s'.ring.rindex == SlotOf(Position(s') - 1, Max(s'))
            && s'.ring.slots[s'.ring.rindex] == Filled(s'.pushed[Position(s') - 1])
  {
    StepInv(s, a);
    assert Holds(Apply(s, a), Apply(s, a).taken);
  }

  /** From one state to a later one the ring keeps its size and mode, and its reader only moves on;
      once it has moved, a keeping ring has its last frame marked as shown. */
  ghost predicate MovedOn(s: State, r: State)
    requires Inv(s) && Inv(r)
  {
    && Max(r) == Max(s) && r.ring.keepLast == s.ring.keepLast && Position(r) >= Position(s)
    && (s.ring.keepLast && (s.ring.shown == 1 || Position(r) > Position(s)) ==> r.ring.shown == 1)
  }

  lemma StepMovesOn(s: State, a: Step)
    requires Inv(s) && Enabled(s, a)
    ensures Inv(Apply(s, a)) && MovedOn(s, Apply(s, a))
  {
    StepInv(s, a);
    hide SlotOf, Holds;
  }

  lemma {:induction false} ReaderMovesOn(s: State, steps: seq<Step>)
    requires Inv(s) && LegalRun(s, steps)
    ensures MovedOn(s, Run(s, steps))
    decreases |steps|
  {
    if steps != [] {
      StepMovesOn(s, steps[0]);
      ReaderMovesOn(Apply(s, steps[0]), steps[1..]);
      hide Inv, Apply, Enabled;
    }
  }

  /** The pointer that frame_queue_peek_readable returned is that of the kept slot after
      frame_queue_next, whatever the writer has done meanwhile. */
  lemma KeptPointer(s: State, steps: seq<Step>)
    requires Inv(s) && s.reader.Peeked? && s.ring.keepLast && LegalRun(s, steps)
    requires Position(Run(s, steps)) == Position(s) + 1
    ensures var r := Run(s, steps).ring; r.shown == 1 && r.rindex == PeekSlot(s.ring)
  {
    ReaderMovesOn(s, steps);
    ModAdd(s.taken, s.ring.shown, Max(s));
  }

  // ---- free slots ----

  /** Slot j holds a frame that has been pushed and not been cleared. */
  ghost predicate InUse(s: State, j: nat)
    requires InRange(s.ring)
  {
    exists k: nat :: s.taken + (if s.reader.Cleared? then 1 else 0) <= k < |s.pushed| && SlotOf(k, Max(s)) == j
  }

  /** Every other slot is empty, but for the one being filled: the frames that are through are let go. */
  ghost predicate FreeEmpty(s: State)
    requires InRange(s.ring)
  {
    forall j: nat :: j < Max(s) && !InUse(s, j) && !(s.writer.Filling? && j == s.ring.windex) ==> s.ring.slots[j].Empty?
  }

  lemma StepFree(s: State, a: Step)
    requires Inv(s) && FreeEmpty(s) && Enabled(s, a)
    ensures Inv(Apply(s, a)) && FreeEmpty(Apply(s, a))
  {
    StepInv(s, a);
    var r := Apply(s, a);
    forall j: nat | j < Max(r) && !InUse(r, j) && !(r.writer.Filling? && j == r.ring.windex)
      ensures r.ring.slots[j].Empty?
    {
      if InUse(s, j) {
        var k: nat :| s.taken + (if s.reader.Cleared? then 1 else 0) <= k < |s.pushed| && SlotOf(k, Max(s)) == j;
        assert a.NextClear? && k == s.taken;
      }
      if a.PushAdvance? {
        assert SlotOf(|s.pushed|, Max(s)) == s.ring.windex;
      }
      hide SlotOf, Holds;
    }
  }

  /** Over every interleaving; so the writer never gets a slot with a frame in it. */
  lemma {:induction false} FreeSlotsEmpty(s: State, steps: seq<Step>)
    requires Inv(s) && FreeEmpty(s) && LegalRun(s, steps)
    ensures FreeEmpty(Run(s, steps))
    ensures var r := Run(s, steps); Enabled(r, PeekWritable) ==> r.ring.slots[r.ring.windex].Empty?
    decreases |steps|
  {
    if steps == [] {
      WritableFree(s);
    } else {
      StepFree(s, steps[0]);
      hide Inv, Apply, Enabled, FreeEmpty;
      FreeSlotsEmpty(Apply(s, steps[0]), steps[1..]);
    }
  }

  lemma WritableFree(s: State)
    requires Inv(s) && FreeEmpty(s)
    ensures Enabled(s, PeekWritable) ==> s.ring.slots[s.ring.windex].Empty?
  {
    if Enabled(s, PeekWritable) && InUse(s, s.ring.windex) {
      var k: nat :| s.taken + (if s.reader.Cleared? then 1 else 0) <= k < |s.pushed| && SlotOf(k, Max(s)) == s.ring.windex;
      SlotsDistinct(k, |s.pushed|, Max(s));
    }
    hide SlotOf;
  }

  lemma InitFree(maxSize: nat, keepLast: bool)
    requires maxSize > 0
    ensures FreeEmpty(Init(maxSize, keepLast))
  {
  }

  /** When the threads wait: the writer exactly if no slot is free, the reader exactly if every frame
      whose push is complete has been passed. */
  lemma WaitsIff(s: State)
    requires Inv(s)
    ensures s.writer.WOutside? ==>
              (!Enabled(s, PeekWritable) <==> |s.pushed| - s.taken + (if s.reader.RAdvanced? then 1 else 0) == Max(s))
    ensures s.reader.ROutside? ==>
              (!Enabled(s, PeekReadable) <==> Position(s) == |s.pushed| - (if s.writer.WAdvanced? then 1 else 0))
    ensures s.reader.Peeked? ==> if s.ring.keepLast && s.ring.shown == 0 then Enabled(s, NextShow) else Enabled(s, NextClear)
  {
  }

  predicate NoNext(steps: seq<Step>) {
    forall k :: 0 <= k < |steps| ==> !steps[k].NextClear? && !steps[k].NextAdvance?
  }

  /** And it stays intact, whatever the writer does, until the next frame_queue_next clears it. */
  lemma {:induction false} KeptUntilNext(s: State, steps: seq<Step>)
    requires Inv(s) && LegalRun(s, steps) && NoNext(steps)
    requires s.ring.shown == 1 && (s.reader.ROutside? || s.reader.Peeked?)
    ensures var r := Run(s, steps).ring;
            r.rindex == s.ring.rindex && r.shown == 1 && r.slots[r.rindex] == s.ring.slots[s.ring.rindex]
    decreases |steps|
  {
    if steps != [] {
      var s' := Apply(s, steps[0]);
      StepInv(s, steps[0]);
      if s.writer.Filling? {
        FillingApart(s, s.taken);
      }
      assert s'.ring.slots[s'.ring.rindex] == s.ring.slots[s.ring.rindex];
      KeptUntilNext(s', steps[1..]);
    }
  }

  // ---- waiting ----

  predicate WriterWaits(s: State) {
    s.writer.WOutside? && s.ring.size >= Max(s)
  }

  predicate ReaderWaits(s: State) {
    s.reader.ROutside? && Remaining(s.ring) <= 0
  }

  /** Writer and reader never wait for each other in a ring of two slots or more, nor in one
      that keeps nothing. */
  lemma NotBothWait(s: State)
    requires Inv(s) && (Max(s) >= 2 || !s.ring.keepLast)
    ensures !(WriterWaits(s) && ReaderWaits(s))
  {
  }

  lemma Prepend(s: State, a: Step, rest: seq<Step>)
    requires Inv(s) && Enabled(s, a)
    requires Inv(Apply(s, a)) ==> LegalRun(Apply(s, a), rest)
    ensures LegalRun(s, [a] + rest) && Inv(Apply(s, a)) && Run(s, [a] + rest) == Run(Apply(s, a), rest)
  {
    StepInv(s, a);
    assert ([a] + rest)[1..] == rest;
  }

  /** A ring of one slot that keeps the last frame locks up after its first frame. */
  lemma OneSlotLocksUp(frame: int) returns (steps: seq<Step>)
    ensures Inv(Init(1, true)) && LegalRun(Init(1, true), steps)
    ensures var s := Run(Init(1, true), steps); WriterWaits(s) && ReaderWaits(s)
  {
    InitInv(1, true);
    var s0 := Init(1, true);
    var s1 := Apply(s0, PeekWritable);
    var s2 := Apply(s1, Fill(Filled(frame)));
    var s3 := Apply(s2, PushAdvance);
    var s4 := Apply(s3, PushCommit);
    var s5 := Apply(s4, PeekReadable);
    hide Inv, LegalRun, Run;
    StepInv(s0, PeekWritable);
    StepInv(s1, Fill(Filled(frame)));
    StepInv(s2, PushAdvance);
    StepInv(s3, PushCommit);
    StepInv(s4, PeekReadable);
    StepInv(s5, NextShow);
    EmptyRun(Apply(s5, NextShow));
    Prepend(s5, NextShow, []);
    Prepend(s4, PeekReadable, [NextShow] + []);
    Prepend(s3, PushCommit, [PeekReadable] + ([NextShow] + []));
    Prepend(s2, PushAdvance, [PushCommit] + ([PeekReadable] + ([NextShow] + [])));
    steps := [PushAdvance] + ([PushCommit] + ([PeekReadable] + ([NextShow] + [])));
    Prepend(s1, Fill(Filled(frame)), steps);
    Prepend(s0, PeekWritable, [Fill(Filled(frame))] + steps);
    steps := [PeekWritable] + ([Fill(Filled(frame))] + steps);
  }

  lemma EmptyRun(s: State)
    requires Inv(s)
    ensures LegalRun(s, []) && Run(s, []) == s
  {
  }
}

/** The functions of the frame queue, each run to its end without the other thread. */
module FrameQueues {
  import opened FrameRing

  class FrameQueue {
    const queue: array<Slot>
    const keepLast: bool
    var rindex: nat
    var windex: nat
    var size: nat
    var rindexShown: nat

    ghost function AsRing(): Ring
      reads this, queue
    {
      Ring(queue[..], rindex, windex, size, rindexShown, keepLast)
    }

    constructor (maxSize: nat, keepLast: bool)
      ensures fresh(queue) && AsRing() == Init(maxSize, keepLast).ring
    {
      queue := new Slot[maxSize](_ => Empty);
      this.keepLast := keepLast;
      rindex, windex, size, rindexShown := 0, 0, 0, 0;
      new;
      assert queue[..] == seq(maxSize, _ => Empty);
    }

    method Peek() returns (slot: nat)
      requires InRange(AsRing())
      ensures slot == PeekSlot(AsRing()) < queue.Length
    {
      slot := (rindex + rindexShown) % queue.Length;
    }

    /** frame_queue_push: the two steps of the writer after filling a slot. */
    method Push()
      requires InRange(AsRing()) && queue[windex].Filled?
      modifies this`windex, this`size
      ensures var s := State(old(AsRing()), Filling, ROutside, [], 0);
              AsRing() == Apply(Apply(s, PushAdvance), PushCommit).ring
    {
      windex := windex + 1;
      if windex == queue.Length {
        windex := 0;
      }
      size := size + 1;
    }

    /** frame_queue_next: the first frame of a keeping queue is only marked as shown, otherwise
        the slot at rindex is cleared and left. */
    method Next()
      requires InRange(AsRing()) && size > 0
      modifies this`rindex, this`size, this`rindexShown, queue
      ensures var s := State(old(AsRing()), WOutside, Peeked, [], 0);
              AsRing() == if s.ring.keepLast && s.ring.shown == 0 then Apply(s, NextShow).ring
                          else Apply(Apply(Apply(s, NextClear), NextAdvance), NextCommit).ring
    {
      if keepLast && rindexShown == 0 {
        rindexShown := 1;
        return;
      }
      queue[rindex] := Empty;
      rindex := rindex + 1;
      if rindex == queue.Length {
        rindex := 0;
      }
      size := size - 1;
    }
  }
}
