/**
 The allocator under any interleaving of its critical sections: an identifier stays with whoever
 got it until it is given back, and is not handed out again before the cursor has made a full turn.
 */
module IdRotation {
  import opened Wrappers
  import opened IdAllocator

  datatype Step = Acquire(r: Result<PacketId, IdError>) | Release(id: PacketId, gen: nat) | Reset

  ghost predicate Next(s: Ids, step: Step, t: Ids) {
    match step
    case Acquire(r) => AcquireStep(s, t, r)
    case Release(id, gen) => t == Released(s, id, gen)
    case Reset => t == Fresh(s)
  }

  ghost predicate Run(states: seq<Ids>, steps: seq<Step>) {
    && |states| == |steps| + 1
    && states[0] == Ids({}, 0, 0)
    && forall i | 0 <= i < |steps| :: Next(states[i], steps[i], states[i + 1])
  }

  // ---------------------------------------------------------------- ownership

  /** Gives `id` back to the generation it was handed out in, or to none at all. */
  predicate GivesBack(step: Step, id: PacketId, gen: nat) {
    step == Reset || step == Release(id, gen)
  }

  /** In every interleaving an identifier is in use, and of the same generation, until it is given back. */
  lemma {:induction false} HeldUntilGivenBack(states: seq<Ids>, steps: seq<Step>, i: nat, j: nat, id: PacketId)
    requires Run(states, steps) && i < j <= |steps| && steps[i] == Acquire(Ok(id))
    requires forall k | i < k < j :: !GivesBack(steps[k], id, states[i].gen)
    ensures id != 0 && id !in states[i].used && id in states[j].used && states[j].gen == states[i].gen
    decreases j
  {
    assert Next(states[j - 1], steps[j - 1], states[j - 1 + 1]);
    if i < j - 1 {
      HeldUntilGivenBack(states, steps, i, j - 1, id);
      assert !GivesBack(steps[j - 1], id, states[i].gen);
    }
  }

  /** So two holders of one generation never share an identifier. */
  lemma NeverShared(states: seq<Ids>, steps: seq<Step>, i: nat, j: nat, id: PacketId)
    requires Run(states, steps) && i < j < |steps| && steps[i] == Acquire(Ok(id)) && steps[j] == Acquire(Ok(id))
    ensures exists k :: i < k < j && GivesBack(steps[k], id, states[i].gen)
  {
    assert Next(states[j], steps[j], states[j + 1]);
    if forall k | i < k < j :: !GivesBack(steps[k], id, states[i].gen) {
      HeldUntilGivenBack(states, steps, i, j, id);
    }
  }

  // ---------------------------------------------------------------- rotation

  /** How far `id` lies behind the identifier after `x`, in cyclic order. */
  function Behind(x: PacketId, id: PacketId): nat {
    (id + 0xFFFF - x) % 0x1_0000
  }

  lemma BehindIs(x: PacketId, id: PacketId)
    ensures Behind(x, id) == if id > x then id - x - 1 else id + 0xFFFF - x
  {
  }

  /** A cursor not past a free `y` hands out something no later than `y`, and then is not past it either. */
  lemma AcquireBefore(s: Ids, t: Ids, x: PacketId, y: PacketId, z: PacketId)
    requires AcquireStep(s, t, Ok(z)) && Free(s.used, y) && x != y
    requires Behind(x, s.next) <= Behind(x, y)
    ensures Behind(x, z) <= Behind(x, y) && z != x
    ensures z != y ==> Behind(x, t.next) <= Behind(x, y)
  {
    BehindIs(x, s.next);
    BehindIs(x, y);
    BehindIs(x, z);
    BehindIs(x, t.next);
    var e := Behind(x, y) - Behind(x, s.next);
    assert At(s.next, e) == y;
    var d: nat :| d < PACKET_ID_SPACE && At(s.next, d) == z && forall e: nat | e < d :: !Free(s.used, At(s.next, e));
    assert d <= e;
    assert At(s.next, d) == if s.next + d < 0x1_0000 then s.next + d else s.next + d - 0x1_0000;
  }

  /** While `y` stays free, the cursor comes no further than `y` on its way round from `x`. */
  lemma {:induction false} CursorStops(states: seq<Ids>, steps: seq<Step>, i: nat, j: nat, x: PacketId, y: PacketId)
    requires Run(states, steps) && i < j <= |steps| && steps[i] == Acquire(Ok(x)) && y != 0 && y != x
    requires forall k | i < k <= j :: y !in states[k].used
    requires forall k | i < k < j :: steps[k] != Reset
    ensures Behind(x, states[j].next) <= Behind(x, y)
    decreases j
  {
    var s, step, t := states[j - 1], steps[j - 1], states[j];
    assert Next(s, step, states[j - 1 + 1]);
    if i == j - 1 {
      assert Behind(x, t.next) == 0;
    } else {
      CursorStops(states, steps, i, j - 1, x, y);
      assert step != Reset;
      if step.Acquire? && step.r.Ok? {
        AcquireBefore(s, t, x, y, step.r.value);
      }
    }
  }

  /**
   In every interleaving without a reset in between, an identifier is handed out a second time only
   after every other identifier has been in use since the first.
   */
  lemma ReuseTakesFullTurn(states: seq<Ids>, steps: seq<Step>, i: nat, j: nat, x: PacketId, y: PacketId)
    requires Run(states, steps) && i < j < |steps| && steps[i] == Acquire(Ok(x)) && steps[j] == Acquire(Ok(x))
    requires (forall k | i < k < j :: steps[k] != Reset) && y != 0 && y != x
    ensures exists k :: i < k <= j && y in states[k].used
  {
    if forall k | i < k <= j :: y !in states[k].used {
      CursorStops(states, steps, i, j, x, y);
      assert Next(states[j], steps[j], states[j + 1]);
      AcquireBefore(states[j], states[j + 1], x, y, x);
    }
  }

  /** An attempt fails exactly when all 65535 identifiers are in use. */
  lemma FailsExactly(states: seq<Ids>, steps: seq<Step>, i: nat)
    requires Run(states, steps) && i < |steps| && steps[i].Acquire?
    ensures steps[i].r.Err? <==> forall id: PacketId | id != 0 :: id in states[i].used
  {
    assert Next(states[i], steps[i], states[i + 1]);
    ExhaustedOrFirstFree(states[i]);
  }
}
