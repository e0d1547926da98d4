/**
 How many new blocks an enqueue can get.

 Supply is what it finds: the head, the room in the block index, the blocks in the pool and the allocations that are granted.
 `Obtainable` says in closed form how many new blocks that yields; the producers' loops get them one after the other.
 */
module BlockSupply {
  import opened BlockNumbers
  import opened BlockIndex
  import I = ImplicitStages

  datatype Supply = Supply(
    size: nat, limit: Option<nat>, width: nat, canAlloc: bool,
    head: nat,
    slots: nat, capacity: nat,         // slots in use, and all slots of the index, or half of those of the first one
    indexed: bool, firstIndex: bool,   // there is an index; and if not, a first one may still be had
    pool: nat, memory: nat)            // free blocks, and how many allocations are granted before one is refused

  ghost predicate Sound(r: Supply) {
    r.width >= 1 && 0 < r.capacity && r.slots <= r.capacity && (!r.indexed ==> r.slots == 0)
  }

  /** Block number k may be begun: neither the limit nor half the range of indices is in its way. */
  ghost predicate MayBegin(r: Supply, k: nat)
    requires r.width >= 1
  {
    !I.Full(r.head, Base(k, r.size), r.size, r.limit, r.width)
  }

  /** How many times an index is doubled to have `wanted` slots. */
  function Doublings(capacity: nat, wanted: nat): nat
    requires 0 < capacity
    decreases wanted - capacity
  {
    if wanted <= capacity then 0 else 1 + Doublings(2 * capacity, wanted)
  }

  lemma {:induction false} DoublingsMonotone(capacity: nat, i: nat, j: nat)
    requires 0 < capacity && i <= j
    ensures Doublings(capacity, i) <= Doublings(capacity, j)
    decreases j - capacity
  {
    if capacity < i {
      DoublingsMonotone(2 * capacity, i, j);
    }
  }

  /** How many new indexes it takes to put i more blocks in the ring. */
  function Growths(r: Supply, i: nat): nat
    requires 0 < r.capacity
  {
    if i == 0 then 0 else if r.indexed then Doublings(r.capacity, r.slots + i) else 1 + Doublings(2 * r.capacity, r.slots + i)
  }

  /** How many of i blocks the pool does not have. */
  function FromHeap(r: Supply, i: nat): nat {
    if i <= r.pool then 0 else i - r.pool
  }

  /** i new blocks, the first of them number k, can be had. */
  ghost predicate Obtainable(r: Supply, k: nat, i: nat)
    requires Sound(r)
  {
    && (forall q: nat :: k <= q < k + i ==> MayBegin(r, q))
    && (i == 0 ||
          if r.canAlloc then (r.indexed || r.firstIndex) && FromHeap(r, i) + Growths(r, i) <= r.memory
          else r.indexed && i <= r.pool && r.slots + i <= r.capacity)
  }

  /** The index is made larger for block number k, and then no block can be had. */
  ghost predicate GrowsInVain(r: Supply, k: nat)
    requires Sound(r)
  {
    && MayBegin(r, k) && r.canAlloc && (if r.indexed then r.slots == r.capacity else r.firstIndex)
    && r.pool == 0 && r.memory == 1
  }

  // ---------- one block after the other ----------

  /** There is a slot for one more block, or memory for a larger index. */
  predicate CanEnter(r: Supply) {
    (r.indexed && r.slots < r.capacity) || ((r.indexed || r.firstIndex) && r.canAlloc && r.memory > 0)
  }

  /** The supply when the index has a slot for one more block. */
  function Grown(r: Supply): Supply {
    if r.indexed && r.slots < r.capacity then r
    else r.(capacity := 2 * r.capacity, indexed := true, memory := if r.memory == 0 then 0 else r.memory - 1)
  }

  /** The supply when a block has been put in the ring, in a slot that there is. */
  function Put(r: Supply): Supply {
    if r.pool > 0 then r.(slots := r.slots + 1, pool := r.pool - 1)
    else r.(slots := r.slots + 1, memory := if r.memory == 0 then 0 else r.memory - 1)
  }

  function Less(r: Supply): Supply {
    Put(Grown(r))
  }

  /** The first block can be had if there is room, a slot for it or memory for a larger index, and a block or memory for one. */
  lemma OneExact(r: Supply, k: nat)
    requires Sound(r)
    ensures Obtainable(r, k, 1) <==>
      && MayBegin(r, k)
      && CanEnter(r)
      && (r.pool > 0 || (r.canAlloc && Grown(r).memory > 0))
  {
    if Obtainable(r, k, 1) {
      assert MayBegin(r, k);
    }
    assert Doublings(2 * r.capacity, r.slots + 1) == 0;
    assert r.slots < r.capacity ==> Doublings(r.capacity, r.slots + 1) == 0;
  }

  /** How the first block is refused: for want of a slot, or, with one, for want of a block. */
  lemma OneTried(r: Supply, k: nat, slot: bool, got: bool)
    requires Sound(r) && (slot <==> MayBegin(r, k) && CanEnter(r))
    requires got <==> slot && (Grown(r).pool > 0 || (r.canAlloc && Grown(r).memory > 0))
    ensures got <==> Obtainable(r, k, 1)
    ensures !got ==> (slot && !(r.indexed && r.slots < r.capacity) <==> GrowsInVain(r, k))
  {
    hide Obtainable;
    OneExact(r, k);
  }

  lemma GrowthsAfterOne(r: Supply, k: nat, j: nat)
    requires Sound(r) && Obtainable(r, k, 1)
    ensures Sound(Less(r))
    ensures r.canAlloc ==> FromHeap(r, j + 1) + Growths(r, j + 1) - r.memory == FromHeap(Less(r), j) + Growths(Less(r), j) - Less(r).memory
  {
    OneExact(r, k);
    assert Doublings(2 * r.capacity, r.slots + 1) == 0;
  }

  /** When one block has been had, one fewer can be had from what is left. */
  lemma LessObtains(r: Supply, k: nat, j: nat)
    requires Sound(r) && Obtainable(r, k, 1)
    ensures Sound(Less(r)) && (Obtainable(r, k, j + 1) <==> Obtainable(Less(r), k + 1, j))
  {
    OneExact(r, k);
    GrowthsAfterOne(r, k, j);
    hide Growths, FromHeap, I.Full, Base;
    assert forall q: nat :: MayBegin(r, q) <==> MayBegin(Less(r), q);
    assert MayBegin(r, k);
  }

  /** If so many can be had, so can fewer. */
  lemma FewerObtainable(r: Supply, k: nat, i: nat, j: nat)
    requires Sound(r) && i <= j && Obtainable(r, k, j)
    ensures Obtainable(r, k, i)
  {
    hide I.Full, Base;
    DoublingsMonotone(r.capacity, r.slots + i, r.slots + j);
    DoublingsMonotone(2 * r.capacity, r.slots + i, r.slots + j);
  }

  /** i blocks have been had, from number k on, and what is left is r'. */
  ghost predicate Leaves(r: Supply, k: nat, i: nat, r': Supply) {
    && Sound(r) && Sound(r') && Obtainable(r, k, i)
    && forall q: nat :: i <= q ==> (Obtainable(r, k, q) <==> Obtainable(r', k + i, q - i))
  }

  lemma LeavesAll(r: Supply, k: nat)
    requires Sound(r)
    ensures Leaves(r, k, 0, r)
  {
    hide MayBegin;
  }

  lemma LeavesOne(r: Supply, k: nat, i: nat, r': Supply)
    requires Leaves(r, k, i, r') && Obtainable(r', k + i, 1)
    ensures Leaves(r, k, i + 1, Less(r'))
  {
    hide Obtainable, Less;
    LessObtains(r', k + i, 0);
    forall q: nat | i + 1 <= q ensures Obtainable(r, k, q) <==> Obtainable(Less(r'), k + (i + 1), q - (i + 1)) {
      LessObtains(r', k + i, q - (i + 1));
    }
    assert Obtainable(r, k, i + 1) <==> Obtainable(r', k + i, 1);
  }

  /**
   What `rest` blocks from number k on come to: all of them exactly if they are obtainable; else `injected` of them, some
   exactly if one is obtainable, and with none the index has grown exactly if it does so in vain.
   */
  ghost predicate Yields(r: Supply, k: nat, rest: nat, ok: bool, injected: nat, grew: bool) {
    && Sound(r) && (ok <==> Obtainable(r, k, rest))
    && (!ok ==> (injected > 0 <==> Obtainable(r, k, 1)) && (injected == 0 ==> (grew <==> GrowsInVain(r, k))))
  }

  lemma LeavesFacts(r: Supply, k: nat, i: nat, r': Supply)
    requires Leaves(r, k, i, r')
    ensures Obtainable(r, k, i)
  {
  }

  lemma LeavesNoMore(r: Supply, k: nat, i: nat, r': Supply, rest: nat)
    requires Leaves(r, k, i, r') && !Obtainable(r', k + i, 1) && i < rest
    ensures !Obtainable(r, k, rest)
  {
    hide Obtainable;
    assert Obtainable(r, k, i + 1) <==> Obtainable(r', k + i, 1);
    if Obtainable(r, k, rest) {
      FewerObtainable(r, k, i + 1, rest);
    }
  }

  lemma YieldsAll(r: Supply, k: nat, i: nat, r': Supply, grew: bool)
    requires Leaves(r, k, i, r')
    ensures Yields(r, k, i, true, i, grew)
  {
  }

  lemma YieldsNoMore(r: Supply, k: nat, i: nat, r': Supply, rest: nat, grew: bool)
    requires Leaves(r, k, i, r') && !Obtainable(r', k + i, 1) && i < rest
    requires i == 0 ==> r' == r && (grew <==> GrowsInVain(r, k))
    ensures Yields(r, k, rest, false, i, grew)
  {
    hide Obtainable, GrowsInVain;
    LeavesNoMore(r, k, i, r', rest);
    assert Obtainable(r, k, i + 1) <==> Obtainable(r', k + i, 1);
    if i > 0 {
      FewerObtainable(r, k, 1, i);
    }
  }
}
