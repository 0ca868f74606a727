/** The packet identifier allocator: a 1024-word bitmap scanned from a rotating cursor. */
module IdAllocator {
  import opened Wrappers
  import opened Bits

  const PACKET_ID_SPACE: nat := 0x1_0000

  type PacketId = n: nat | n < 0x1_0000

  datatype IdError = PacketIdExhausted

  /** What the bitmap stands for: the identifiers in use, the cursor and the generation. */
  datatype Ids = Ids(used: set<PacketId>, next: PacketId, gen: nat)

  /** A 16-bit increment: 65535 wraps to 0. */
  function Inc16(n: PacketId): PacketId {
    if n == 0xFFFF then 0 else n + 1
  }

  /** The identifier `d` places after the cursor, in cyclic order. */
  function At(next: PacketId, d: nat): PacketId {
    (next + d) % PACKET_ID_SPACE
  }

  predicate Free(used: set<PacketId>, id: PacketId) {
    id != 0 && id !in used
  }

  /** `id` is the first free identifier in cyclic order from the cursor. */
  ghost predicate FirstFree(ids: Ids, id: PacketId) {
    exists d: nat ::
      && d < PACKET_ID_SPACE
      && At(ids.next, d) == id
      && Free(ids.used, id)
      && forall e: nat | e < d :: !Free(ids.used, At(ids.next, e))
  }

  ghost predicate Exhausted(ids: Ids) {
    forall id: PacketId | id != 0 :: id in ids.used
  }

  function Released(ids: Ids, id: PacketId, gen: nat): Ids {
    if id != 0 && gen == ids.gen then ids.(used := ids.used - {id}) else ids
  }

  function Fresh(ids: Ids): Ids {
    Ids({}, 0, ids.gen + 1)
  }

  /** The outcome of `Acquire` as a relation between the states before and after. */
  ghost predicate AcquireStep(before: Ids, after: Ids, r: Result<PacketId, IdError>) {
    match r
    case Ok(id) => FirstFree(before, id) && after == before.(used := before.used + {id}, next := Inc16(id))
    case Err(_) => Exhausted(before) && after == before
  }

  /** At most one identifier is first in cyclic order. */
  lemma FirstFreeUnique(ids: Ids, a: PacketId, b: PacketId)
    requires FirstFree(ids, a) && FirstFree(ids, b)
    ensures a == b
  {
  }

  /** A full turn of the cursor visits every identifier. */
  lemma TurnCovers(next: PacketId, id: PacketId) returns (d: nat)
    ensures d < PACKET_ID_SPACE && At(next, d) == id
  {
    d := if next <= id then id - next else id + PACKET_ID_SPACE - next;
  }

  /** A scan that finds nothing in a full turn has seen every identifier in use. */
  lemma FullTurnExhausts(ids: Ids)
    requires forall e: nat | e < PACKET_ID_SPACE :: !Free(ids.used, At(ids.next, e))
    ensures Exhausted(ids)
  {
    forall id: PacketId | id != 0
      ensures id in ids.used
    {
      var d := TurnCovers(ids.next, id);
      assert !Free(ids.used, At(ids.next, d));
    }
  }

  /** Exhaustion and a first free identifier exclude each other, and one of them always holds. */
  lemma {:induction false} ExhaustedOrFirstFree(ids: Ids)
    ensures Exhausted(ids) <==> !exists id: PacketId :: FirstFree(ids, id)
  {
    if !Exhausted(ids) {
      var id: PacketId :| id != 0 && id !in ids.used;
      var d := TurnCovers(ids.next, id);
      var _ := LeastFree(ids, d);
    }
  }

  lemma {:induction false} LeastFree(ids: Ids, d: nat) returns (id: PacketId)
    requires d < PACKET_ID_SPACE && Free(ids.used, At(ids.next, d))
    ensures FirstFree(ids, id)
    decreases d
  {
    if e: nat :| e < d && Free(ids.used, At(ids.next, e)) {
      id := LeastFree(ids, e);
    } else {
      id := At(ids.next, d);
    }
  }

  class Allocator {
    const used: array<bv64>
    var next: PacketId
    var gen: nat

    ghost predicate Valid()
      reads this, used
    {
      used.Length == 1024
    }

    predicate InUse(id: PacketId)
      requires Valid()
      reads this, used
    {
      HasBit(used[id / 64], id % 64)
    }

    ghost function View(): Ids
      requires Valid()
      reads this, used
    {
      Ids((set id: PacketId | 0 <= id < PACKET_ID_SPACE && InUse(id)), next, gen)
    }

    constructor ()
      ensures Valid() && fresh(used)
      ensures View() == Ids({}, 0, 0)
    {
      used := new bv64[1024](_ => 0);
      next := 0;
      gen := 0;
    }

    /** Reserves the first free non-zero identifier from the cursor on. */
    method Acquire() returns (r: Result<PacketId, IdError>, g: nat)
      requires Valid()
      modifies this`next, used
      ensures Valid() && g == old(gen)
      ensures AcquireStep(old(View()), View(), r)
    {
      g := gen;
      ghost var start := View();
      for i := 0 to PACKET_ID_SPACE
        invariant View() == start.(next := At(start.next, i))
        invariant forall e: nat | e < i :: !Free(start.used, At(start.next, e))
        invariant used[..] == old(used[..])
      {
        var id := next;
        next := Inc16(next);
        assert At(start.next, i + 1) == Inc16(id);
        if id != 0 && !InUse(id) {
          SetUsed(id);
          assert FirstFree(start, id);
          return Ok(id), g;
        }
        assert !Free(start.used, id);
      }
      FullTurnExhausts(start);
      r := Err(PacketIdExhausted);
    }

    /** Sets the bit of `id`. */
    method SetUsed(id: PacketId)
      requires Valid()
      modifies used
      ensures Valid()
      ensures View() == old(View()).(used := old(View()).used + {id})
    {
      ghost var before := used[..];
      used[id / 64] := WithBit(used[id / 64], id % 64);
      forall j: PacketId
        ensures InUse(j) <==> j == id || old(InUse(j))
      {
        WithBitHas(before[id / 64], id % 64, j % 64);
      }
    }

    /** Clears the bit of `id`, unless a reset has happened since `g`. */
    method ReleaseAt(id: PacketId, g: nat)
      requires Valid()
      modifies used
      ensures Valid()
      ensures View() == Released(old(View()), id, g)
    {
      if id == 0 {
        return;
      }
      if g == gen {
        ghost var before := used[..];
        used[id / 64] := WithoutBit(used[id / 64], id % 64);
        forall j: PacketId
          ensures InUse(j) <==> j != id && old(InUse(j))
        {
          WithoutBitHas(before[id / 64], id % 64, j % 64);
        }
      }
    }

    /** Frees every identifier, rewinds the cursor and starts a new generation. */
    method Reset()
      requires Valid()
      modifies this`next, this`gen, used
      ensures Valid()
      ensures View() == Fresh(old(View()))
    {
      forall i | 0 <= i < used.Length {
        used[i] := 0;
      }
      next := 0;
      gen := gen + 1;
      forall j: PacketId
        ensures !InUse(j)
      {
        assert used[j / 64] == 0;
      }
    }
  }
}
