/** The pool of frames or packets shared by the queues: fftools/objpool.c.

Objects are named by numbers. What the allocator answers is a parameter of each step: any object
that is not live, or none when memory has run out.
 */
module ObjPoolModel {
  const CAPACITY: nat := 32

  datatype Answer = Object(id: nat) | OutOfMemory

  /** `pool` holds the first pool_count slots, `lent` the objects their users hold, and `dirty`
      the live objects that hold references to data. */
  datatype State = State(pool: seq<nat>, lent: set<nat>, dirty: set<nat>)

  /** Use stands for whatever the holder of an object stores in it. */
  datatype Step = Get(alloc: Answer) | Use(obj: nat) | Release(obj: nat)

  const EMPTY: State := State([], {}, {})

  ghost predicate Live(s: State, obj: nat) {
    obj in s.pool || obj in s.lent
  }

  /** Users release and use only what they hold; the allocator returns no live object. */
  ghost predicate Allowed(s: State, a: Step) {
    match a
    case Get(alloc) => alloc.Object? ==> !Live(s, alloc.id) && alloc.id !in s.dirty
    case Use(obj) => obj in s.lent
    case Release(obj) => obj in s.lent
  }

  /** What objpool_get hands out. */
  function Given(s: State, alloc: Answer): Answer {
    if s.pool != [] then Object(s.pool[|s.pool| - 1]) else alloc
  }

  function Taken(s: State, alloc: Answer): State {
    var rest := if s.pool != [] then s.pool[..|s.pool| - 1] else [];
    match Given(s, alloc)
    case Object(id) => s.(pool := rest, lent := s.lent + {id})
    case OutOfMemory => s.(pool := rest)
  }

  /** objpool_release: reset the object, then keep it if there is room and free it if not. */
  function Released(s: State, obj: nat): State {
    State(if |s.pool| < CAPACITY then s.pool + [obj] else s.pool, s.lent - {obj}, s.dirty - {obj})
  }

  function Apply(s: State, a: Step): State {
    match a
    case Get(alloc) => Taken(s, alloc)
    case Use(obj) => s.(dirty := s.dirty + {obj})
    case Release(obj) => Released(s, obj)
  }

  ghost predicate Inv(s: State) {
    && |s.pool| <= CAPACITY
    && (forall i, j :: 0 <= i < j < |s.pool| ==> s.pool[i] != s.pool[j])
    && (forall i :: 0 <= i < |s.pool| ==> s.pool[i] !in s.lent && s.pool[i] !in s.dirty)
    && s.dirty <= s.lent
  }

  ghost predicate AllowedRun(s: State, steps: seq<Step>)
    decreases |steps|
  {
    steps == [] || (Allowed(s, steps[0]) && AllowedRun(Apply(s, steps[0]), steps[1..]))
  }

  function Run(s: State, steps: seq<Step>): State
    decreases |steps|
  {
    if steps == [] then s else Run(Apply(s, steps[0]), steps[1..])
  }

  lemma {:induction false} RunInv(s: State, steps: seq<Step>)
    requires Inv(s) && AllowedRun(s, steps)
    ensures Inv(Run(s, steps))
    decreases |steps|
  {
    if steps != [] {
      RunInv(Apply(s, steps[0]), steps[1..]);
    }
  }

  /** After any run, an object handed out is held by nobody else and holds no data. */
  lemma ExclusiveAndClean(steps: seq<Step>, alloc: Answer)
    requires AllowedRun(EMPTY, steps)
    requires Allowed(Run(EMPTY, steps), Get(alloc))
    ensures var s := Run(EMPTY, steps);
            var given := Given(s, alloc);
            given.Object? ==>
              given.id !in s.lent && given.id !in s.dirty && Taken(s, alloc).lent == s.lent + {given.id}
  {
    RunInv(EMPTY, steps);
  }

  /** Objects lent plus objects pooled: what a run has allocated less what it has freed. */
  function Balance(s: State, steps: seq<Step>): int
    decreases |steps|
  {
    if steps == [] then 0
    else
      var change := match steps[0]
        case Get(alloc) => if s.pool == [] && alloc.Object? then 1 else 0
        case Use(_) => 0
        case Release(_) => if |s.pool| < CAPACITY then 0 else -1;
      change + Balance(Apply(s, steps[0]), steps[1..])
  }

  /** Nothing is leaked and nothing is freed twice. */
  lemma {:induction false} NoneLost(s: State, steps: seq<Step>)
    requires Inv(s) && AllowedRun(s, steps)
    ensures var end := Run(s, steps);
            |end.pool| + |end.lent| == |s.pool| + |s.lent| + Balance(s, steps)
    decreases |steps|
  {
    if steps != [] {
      var s' := Apply(s, steps[0]);
      LentChange(s, steps[0]);
      NoneLost(s', steps[1..]);
    }
  }

  lemma LentChange(s: State, a: Step)
    requires Inv(s) && Allowed(s, a)
    ensures Inv(Apply(s, a))
    ensures |Apply(s, a).lent| == |s.lent| + match a
              case Get(alloc) => if Given(s, alloc).Object? then 1 else 0
              case Use(_) => 0
              case Release(_) => -1
  {
  }

  /** Releasing into a pool with room and getting again yields the same object, now clean. */
  lemma ReleaseThenGet(s: State, obj: nat, alloc: Answer)
    requires Inv(s) && obj in s.lent && |s.pool| < CAPACITY
    ensures var released := Released(s, obj);
            Given(released, alloc) == Object(obj) && Taken(released, alloc) == s.(dirty := s.dirty - {obj})
  {
    assert (s.pool + [obj])[..|s.pool|] == s.pool;
    assert s.lent - {obj} + {obj} == s.lent;
  }
}

module ObjPools {
  import opened ObjPoolModel

  /** A slot of the array: NULL above pool_count. */
  datatype Slot = Null | Pointer(id: nat)

  class ObjPool {
    const pool: array<Slot>
    var poolCount: nat

    ghost predicate Valid()
      reads this, pool
    {
      && pool.Length == CAPACITY && poolCount <= CAPACITY
      && (forall i :: 0 <= i < poolCount ==> pool[i].Pointer?)
      && (forall i :: poolCount <= i < CAPACITY ==> pool[i].Null?)
    }

    ghost function Contents(): (s: seq<nat>)
      reads this, pool
      requires Valid()
    {
      seq(poolCount, i requires 0 <= i < poolCount && Valid() reads this, pool => pool[i].id)
    }

    constructor ()
      ensures Valid() && fresh(pool) && Contents() == []
    {
      pool := new Slot[CAPACITY](_ => Null);
      poolCount := 0;
    }

    method Get(alloc: Answer) returns (obj: Answer)
      requires Valid()
      modifies this`poolCount, pool
      ensures Valid()
      ensures forall lent, dirty ::
                obj == Given(State(old(Contents()), lent, dirty), alloc)
                && Contents() == Taken(State(old(Contents()), lent, dirty), alloc).pool
    {
      if poolCount > 0 {
        poolCount := poolCount - 1;
        obj := Object(pool[poolCount].id);
        pool[poolCount] := Null;
      } else {
        obj := alloc;
      }
    }

    /** `freed` says whether the free callback is called. Releasing a null pointer does nothing. */
    method Release(obj: Slot) returns (freed: bool)
      requires Valid()
      modifies this`poolCount, pool
      ensures Valid()
      ensures obj.Null? ==> Contents() == old(Contents())
      ensures obj.Pointer? ==>
                forall lent, dirty :: Contents() == Released(State(old(Contents()), lent, dirty), obj.id).pool
      ensures freed <==> obj.Pointer? && |old(Contents())| == CAPACITY
    {
      freed := false;
      if obj.Null? {
        return;
      }
      if poolCount < pool.Length {
        pool[poolCount] := obj;
        poolCount := poolCount + 1;
      } else {
        freed := true;
      }
    }
  }
}
