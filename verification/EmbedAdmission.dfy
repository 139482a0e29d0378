/**
 * Admission in front of the embedder (lib.rs `EmbedAdmission`): a semaphore for
 * each lane, taken without waiting, and permits that give their slot back when
 * they are dropped.
 */
module EmbedAdmission {
  import opened Wrappers
  import EmbedPool

  type Lane = EmbedPool.Lane

  /** Permits out, each with the lane it was taken from. */
  function HeldIn(held: map<nat, Lane>, lane: Lane): set<nat> { set p | p in held && held[p] == lane }

  lemma TakingHolds(held: map<nat, Lane>, permit: nat, lane: Lane, other: Lane)
    requires permit !in held
    ensures |HeldIn(held[permit := lane], other)| == |HeldIn(held, other)| + if other == lane then 1 else 0
  {
    var held' := held[permit := lane];
    if other == lane {
      assert HeldIn(held', other) == HeldIn(held, other) + {permit};
    } else {
      assert HeldIn(held', other) == HeldIn(held, other);
    }
  }

  lemma DroppingFrees(held: map<nat, Lane>, permit: nat, other: Lane)
    requires permit in held
    ensures |HeldIn(held, other)| == |HeldIn(held - {permit}, other)| + if other == held[permit] then 1 else 0
  {
    if other == held[permit] {
      assert HeldIn(held, other) == HeldIn(held - {permit}, other) + {permit};
    } else {
      assert HeldIn(held, other) == HeldIn(held - {permit}, other);
    }
  }

  class EmbedAdmission {
    const bulkCapacity: nat
    const interactiveCapacity: nat
    var bulk: nat
    var interactive: nat
    /** The permits out, by the order they were taken. */
    ghost var held: map<nat, Lane>
    ghost var taken: nat

    function Capacity(lane: Lane): nat { if lane == EmbedPool.Interactive then interactiveCapacity else bulkCapacity }

    function Free(lane: Lane): nat
      reads this
    {
      if lane == EmbedPool.Interactive then interactive else bulk
    }

    /** On each lane, slots free and permits out always make up its capacity. */
    ghost predicate Valid()
      reads this
    {
      && (forall p :: p in held ==> p < taken)
      && Free(EmbedPool.Interactive) + |HeldIn(held, EmbedPool.Interactive)| == interactiveCapacity
      && Free(EmbedPool.Bulk) + |HeldIn(held, EmbedPool.Bulk)| == bulkCapacity
    }

    constructor (bulkCapacity: nat, interactiveCapacity: nat)
      ensures Valid() && held == map[]
      ensures Capacity(EmbedPool.Bulk) == bulkCapacity && Capacity(EmbedPool.Interactive) == interactiveCapacity
    {
      this.bulkCapacity, this.interactiveCapacity := bulkCapacity, interactiveCapacity;
      bulk, interactive := bulkCapacity, interactiveCapacity;
      held, taken := map[], 0;
      new;
      assert HeldIn(held, EmbedPool.Interactive) == {} && HeldIn(held, EmbedPool.Bulk) == {};
    }

    /** Admits exactly while the lane itself has fewer permits out than its capacity, whatever the other lane does. */
    method TryAcquire(lane: Lane) returns (ghost permit: Option<nat>, admitted: bool)
      requires Valid()
      modifies this
      ensures Valid() && admitted == permit.Some?
      ensures admitted == (|HeldIn(old(held), lane)| < Capacity(lane))
      ensures admitted ==> permit.value !in old(held) && held == old(held)[permit.value := lane]
      ensures !admitted ==> held == old(held)
      ensures forall other: Lane :: other != lane ==> Free(other) == old(Free(other))
    {
      if Free(lane) == 0 { return None, false; }
      TakingHolds(held, taken, lane, EmbedPool.Interactive);
      TakingHolds(held, taken, lane, EmbedPool.Bulk);
      if lane == EmbedPool.Interactive { interactive := interactive - 1; } else { bulk := bulk - 1; }
      permit, admitted := Some(taken), true;
      held, taken := held[taken := lane], taken + 1;
    }

    /** A permit's end, by return or by panic. */
    method DropPermit(lane: Lane, ghost permit: nat)
      requires Valid() && permit in held && held[permit] == lane
      modifies this
      ensures Valid() && held == old(held) - {permit}
      ensures Free(lane) == old(Free(lane)) + 1
      ensures forall other: Lane :: other != lane ==> Free(other) == old(Free(other))
    {
      DroppingFrees(held, permit, EmbedPool.Interactive);
      DroppingFrees(held, permit, EmbedPool.Bulk);
      held := held - {permit};
      if lane == EmbedPool.Interactive { interactive := interactive + 1; } else { bulk := bulk + 1; }
    }
  }
}
