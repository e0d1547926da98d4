/**
 An explicit producer: the sub-queue behind a producer token.

 The fields are the program's and `s` is all of them with the history that explains them
 (module ExplicitState). The operations are built from atomic steps, and Interfere lets the
 consumers take any number of steps between them.
 */
module ExplicitProducer {
  import opened BlockNumbers
  import opened BlockIndex
  import opened ExplicitState
  import opened ExplicitUpdates
  import opened ExplicitStages
  import opened ExplicitBulk
  import opened BlockSupply
  import opened Circular
  import I = ImplicitStages
  import U = ExplicitSteps

  class Producer<T> {
    const size: nat                           // BLOCK_SIZE
    const width: nat                          // bits of index_t
    const limit: Option<nat>                  // MAX_SUBQUEUE_SIZE
    const undisturbed: bool                   // no other thread does anything while an enqueue runs

    var tailIndex: nat
    var headIndex: nat
    var tailBlock: Option<Block>
    var tables: seq<seq<Option<Entry>>>       // the chain of headers, newest last
    var fronts: seq<int>
    var slotsUsed: nat                        // pr_blockIndexSlotsUsed
    var indexSize: nat                        // pr_blockIndexSize
    var indexFront: nat                       // pr_blockIndexFront
    var cells: map<(Block, nat), T>           // the elements in the blocks
    var counter: map<Block, nat>              // how many elements of a block have been dequeued
    var next: map<Block, Block>
    var flights: seq<Flight>                  // the consumers
    var free: set<Block>                      // the pool of free blocks
    var created: nat
    var memory: nat                           // how many allocations are granted before one is refused

    ghost var s: State<T>                     // all of it, with its history

    /** The fields are what the history says they are. */
    ghost predicate Mirrors()
      reads this
    {
      && s.size == size && s.tables == tables && s.fronts == fronts && s.slots == slotsUsed
      && s.cells == cells && s.counter == counter && s.next == next && s.tailBlock == tailBlock
      && s.head == headIndex && |s.items| == tailIndex && s.flights == flights
      && indexSize > 0
      && (s.tables != [] && |s.shift| == |s.tables| ==>
            indexSize == |s.tables[Last(s)]| && indexFront == Slot(indexSize, s.shift[Last(s)], |s.blocks|))
    }

    /** The invariant at every atomic step. */
    ghost predicate Valid()
      reads this
    {
      size > 0 && width >= 1 && Mirrors() && Inv(s) && RingLinked(s) && OwnsRing(s, free, created)
    }

    lemma InvOfValid()
      requires Valid()
      ensures Inv(s) && RingLinked(s) && s.size == size && size > 0 && width >= 1
      ensures tailIndex == |s.items| && headIndex == s.head && tailBlock == s.tailBlock && tables == s.tables
      ensures next == s.next && counter == s.counter && slotsUsed == s.slots && flights == s.flights
    {
    }

    lemma FrontOfValid()
      requires Valid()
      ensures SavedFront(s, indexFront)
    {
    }

    lemma RoomInIndex()
      requires Valid() && tables != []
      ensures slotsUsed <= indexSize
    {
      NewestOfInv(s);
    }

    /** What a bulk enqueue finds besides the blocks ahead. */
    ghost function Supplies(canAlloc: bool): Supply
      reads this
    {
      Supply(size, limit, width, canAlloc, headIndex, slotsUsed, indexSize, tables != [], true, |free|, memory)
    }

    /** What only an allocation changes: the number of blocks and of headers, and the memory left. */
    ghost function Heap(): (int, int, int)
      reads this`created, this`tables, this`memory
    {
      (created, |tables|, memory)
    }

    lemma SuppliesAreSound(canAlloc: bool)
      requires Valid()
      ensures Sound(Supplies(canAlloc))
    {
      NewestOfInv(s);
    }

    // ---------- consumers ----------

    /** One atomic step of consumer t; an idle one claims n elements. */
    method Dispatch(t: nat, n: nat)
      requires Mirrors() && CanStep(s, t, n)
      modifies this`counter, this`headIndex, this`flights, this`s
      ensures Mirrors() && s == StepOf(old(s), t, n)
    {
      ghost var s' := StepOf(s, t, n);
      match flights[t] {
        case Idle =>
          flights := flights[t := Claimed(headIndex, headIndex + n)];
          headIndex := headIndex + n;
        case Claimed(i, stop) =>
          flights := flights[t := HasHeader(|tables| - 1, i, stop)];
        case HasHeader(j, i, stop) =>
          flights := flights[t := HasFront(j, fronts[j], i, stop)];
        case HasFront(j, front, i, stop) =>
          var offset := Number(i, size) - tables[j][front].value.number;
          flights := flights[t := Reading(j, (front + offset) % |tables[j]|, i, stop)];
        case Reading(j, slot, i, stop) =>
          var b, end := tables[j][slot].value.block, SectionEnd(i, stop, size);
          SectionBounds(i, stop, size);
          counter := counter[b := counter[b] + (end - i)];
          flights := flights[t := if end == stop then Idle else Reading(j, (slot + 1) % |tables[j]|, end, stop)];
      }
      s := s';
    }

    /** One step of consumer t; an idle one claims n elements if they are there. */
    method ConsumerStep(t: nat, n: nat)
      requires Valid() && t < |flights|
      modifies this`counter, this`headIndex, this`flights, this`s
      ensures Valid() && ByConsumers(old(s), s)
    {
      hide Inv, RingLinked, OwnsRing;
      if !flights[t].Idle? || (0 < n && headIndex + n <= tailIndex) {
        StepFacts(s, t, n, free, created);
        Dispatch(t, n);
      } else {
        NoStep(s);
      }
    }

    /** Any number of steps of any consumers, unless the producer is undisturbed. */
    method Interfere()
      requires Valid()
      modifies this`counter, this`headIndex, this`flights, this`s
      ensures Valid() && ByConsumers(old(s), s)
      ensures undisturbed ==> s == old(s) && headIndex == old(headIndex)
    {
      hide Valid, Inv, ByConsumers;
      ghost var start := s;
      NoStep(s);
      var rounds: nat := *;
      if undisturbed {
        rounds := 0;
      }
      while rounds > 0
        invariant Valid() && ByConsumers(start, s)
        invariant undisturbed ==> rounds == 0 && s == start && headIndex == old(headIndex)
      {
        var t: nat := *;
        var n: nat := *;
        ghost var before := s;
        if t < |flights| {
          ConsumerStep(t, n);
          ByConsumersChains(start, before, s);
        }
        rounds := rounds - 1;
      }
    }

    // ---------- the producer's atomic steps ----------

    /** The entry at pr_blockIndexFront, and the front after it. */
    method StoreEntry(k: nat, b: Block, ghost s': State<T>)
      requires k == |s.blocks| && Mirrors() && s.tables != [] && |s.shift| == |s.tables| && |s.tables[Last(s)]| > 0
      requires s' == s.(tables := Entered(s, b), blocks := s.blocks + [b], slots := s'.slots, tailBlock := Some(b),
                        kept := s'.kept, counter := s'.counter, next := s'.next)
      modifies this`tables, this`indexFront, this`tailBlock, this`s
      ensures s == s' && tables == Entered(old(s), b) && tailBlock == Some(b)
      ensures indexFront == Slot(indexSize, old(s.shift[Last(s)]), |old(s).blocks| + 1)
    {
      var n := |tables| - 1;
      FollowingSlot(indexSize, s.shift[n], |s.blocks|);
      tables := tables[n := tables[n][indexFront := Some(Entry(k, b))]];
      indexFront := (indexFront + 1) % indexSize;
      tailBlock := Some(b);
      s := s';
    }

    /** The block after the tail block is empty: it becomes the tail block. */
    method TakeNext(k: nat)
      requires Valid() && AtTail(s) && s.tailBlock.Some? && k == |s.blocks|
      requires Oldest(s) < s.published && OldestIsDone(s)
      modifies this`tables, this`indexFront, this`tailBlock, this`s
      ensures Valid() && s.blocks != old(s).blocks && Oldest(old(s)) >= 0
      ensures s.size == old(s).size && TookFrom(old(s), s)
      ensures U.Made(old(s), s, U.TakeBlock)
      ensures |tables| == old(|tables|)
    {
      hide Inv, RingLinked, OwnsRing;
      NextIsOldest(s);
      NewestOfInv(s);
      TakeKeepsInv(s);
      TakeRingLinked(s);
      TakeOwns(s, free, created);
      TakeIsTook(s);
      StoreEntry(k, next[tailBlock.value], Take(s));
    }

    /** reset_empty on the block of number k, which is not published. */
    method ResetEmpty(b: Block, ghost k: nat)
      requires Valid() && s.published <= k < |s.blocks| && Oldest(s) <= k && b == s.blocks[k]
      modifies this`counter, this`s
      ensures Valid() && s == Reset(old(s), k)
      ensures U.Made(old(s), s, U.ResetBlock(k))
    {
      hide Inv;
      ResetKeepsInv(s, k);
      counter := counter[b := 0];
      s := Reset(s, k);
      LinkedFramed(old(s), s);
    }

    method ConstructAt(b: Block, i: nat, x: T)
      requires Valid() && |s.items| <= i && Oldest(s) <= Number(i, s.size) < |s.blocks| && b == s.blocks[Number(i, s.size)]
      modifies this`cells, this`s
      ensures Valid() && s == Construct(old(s), b, Offset(i, s.size), x)
      ensures U.Made(old(s), s, U.ConstructCell(i, x))
    {
      hide Inv;
      ConstructKeepsInv(s, i, x);
      cells := cells[(b, Offset(i, size)) := x];
      s := Construct(s, b, Offset(i, size), x);
      LinkedFramed(old(s), s);
    }

    /** front.store, of the slot before pr_blockIndexFront */
    method StoreFrontSlot()
      requires Valid() && s.tables != [] && s.blocks != [] && s.kept < |s.blocks|
      modifies this`fronts, this`s
      ensures Valid() && |old(s).shift| == |old(s).tables| == |old(s).fronts| && |old(s).tables[Last(old(s))]| > 0
      ensures s == StoreFront(old(s)) && FrontOk(s.tables[Last(s)], s.fronts[Last(s)])
      ensures U.Made(old(s), s, U.StoreFrontSlot)
    {
      hide Inv;
      NewestOfInv(s);
      StoreFrontKeepsInv(s);
      FrontBefore(indexSize, s.shift[Last(s)], |s.blocks|);
      fronts := fronts[|tables| - 1 := (indexFront - 1) % indexSize];
      s := StoreFront(s);
      LinkedFramed(old(s), s);
    }

    /** tailIndex.store */
    method StoreTailIndex(newTail: nat, ghost xs: seq<T>)
      requires Valid() && newTail == tailIndex + |xs| <= Base(|s.blocks|, s.size) && Constructed(s, xs, |xs|) && Untouched(s)
      requires s.blocks != [] ==> s.tables != [] && |s.fronts| == |s.tables| && FrontOk(s.tables[Last(s)], s.fronts[Last(s)])
      requires s.kept <= s.published && |s.done| <= |s.blocks|
      modifies this`tailIndex, this`s
      ensures Valid() && s == Publish(old(s), xs)
      ensures U.Made(old(s), s, U.PublishItems(xs))
    {
      hide Inv;
      PublishKeepsInv(s, xs);
      tailIndex := newTail;
      s := Publish(s, xs);
      LinkedFramed(old(s), s);
    }

    // ---------- the index ----------

    /** The entries that are copied to a new header. */
    method CopyEntries(capacity: nat) returns (entries: seq<Option<Entry>>)
      requires Valid() && s.slots <= |s.blocks| && s.slots <= capacity
      requires s.slots > 0 ==> s.tables != [] && |s.shift| == |s.tables| && |s.tables[Last(s)]| > 0
      ensures |entries| <= capacity && entries + seq(capacity - |entries|, _ => None) == Copied(s, capacity)
      ensures |entries| == slotsUsed
    {
      hide Inv, RingLinked, OwnsRing, UsedSlot, Copied;
      entries := [];
      if slotsUsed > 0 {
        NewestOfInv(s);
        entries := CopyUsed(tables[|tables| - 1], indexFront, slotsUsed);
        CopiedFrom(s, indexFront, entries, capacity);
      } else {
        CopiedNone(s, capacity);
      }
    }

    /** The header is published. */
    method InstallHeader(entries: seq<Option<Entry>>, capacity: nat, exposed: nat)
      requires Mirrors() && s.slots < capacity && s.slots <= |s.blocks| && |s.seen| == |s.tables| == |s.shift|
      requires s.slots > 0 ==> s.tables != [] && |s.tables[Last(s)]| > 0
      requires |entries| <= capacity && entries + seq(capacity - |entries|, _ => None) == Copied(s, capacity)
      modifies this`tables, this`fronts, this`indexSize, this`indexFront, this`s
      ensures Mirrors() && s == Enlarge(old(s), capacity, exposed) && indexSize == capacity
    {
      CopiedLength(s, capacity);
      FrontAfterCopy(s, capacity);
      hide Slot, Copied;
      s := Enlarge(s, capacity, exposed);
      tables := tables + [entries + seq(capacity - |entries|, _ => None)];
      fronts := fronts + [exposed - 1];
      indexSize, indexFront := capacity, slotsUsed;
    }

    /** A request for memory; what is granted after a refusal is anything. */
    method Allocate() returns (ok: bool)
      modifies this`memory
      ensures undisturbed ==> (ok <==> old(memory) > 0) && (ok ==> memory == old(memory) - 1)
    {
      if !undisturbed {
        memory := *;
      }
      ok := memory > 0;
      if ok {
        memory := memory - 1;
      } else {
        memory := *;
      }
    }

    /** new_block_index: twice as many slots, or none if memory is refused. */
    method NewBlockIndex(exposed: nat) returns (ok: bool)
      requires Valid() && s.kept == Oldest(s) && exposed <= s.slots && (s.published > 0 ==> exposed > 0)
      modifies this`tables, this`fronts, this`indexSize, this`indexFront, this`memory, this`s
      ensures Valid() && (!ok ==> s == old(s) && indexSize == old(indexSize) && indexFront == old(indexFront))
      ensures ok ==> indexSize == 2 * old(indexSize) && Enlarged(old(s), s, indexSize, exposed)
      ensures ok ==> U.Made(old(s), s, U.EnlargeIndex(indexSize, exposed))
      ensures undisturbed ==> (ok <==> old(memory) > 0) && (ok ==> memory == old(memory) - 1)
    {
      hide Inv, RingLinked, OwnsRing, Copied, U.Made;
      ok := Allocate();
      if ok {
        var capacity := 2 * indexSize;
        GrowFacts(s, indexSize, exposed);
        U.EnlargeIsMade(s, capacity, exposed);
        var entries := CopyEntries(capacity);
        LinkedFramed(s, Enlarge(s, capacity, exposed));
        InstallHeader(entries, capacity, exposed);
      }
    }

    // ---------- a new block ----------

    /** requisition_block: a free block, a new one, or none. */
    method Requisition(canAlloc: bool) returns (b: Option<Block>)
      requires Valid()
      modifies this`free, this`created, this`memory
      ensures Valid()
      ensures b.Some? ==> NotInRing(s, b.value) && b.value < created && b.value !in free
      ensures undisturbed && old(free) != {} ==> b.Some? && |free| == |old(free)| - 1 && memory == old(memory)
      ensures undisturbed && old(free) == {} ==> (b.Some? <==> canAlloc && old(memory) > 0)
      ensures undisturbed && old(free) == {} && b.Some? ==> free == {} && memory == old(memory) - 1
      ensures !canAlloc ==> Heap() == old(Heap())
    {
      hide Inv, RingLinked;
      var contended: bool := *;
      if free != {} && (undisturbed || !contended) {
        var c :| c in free;
        free := free - {c};
        return Some(c);
      }
      b := None;
      if canAlloc {
        var ok := Allocate();
        if ok {
          b := Some(created);
          created := created + 1;
        }
      }
    }

    /** The new block's `next` and the tail block's, and the number of slots used. */
    method LinkNew(b: Block, count: nat)
      requires Mirrors() && (s.tailBlock.Some? ==> s.tailBlock.value in s.next)
      modifies this`next, this`counter, this`slotsUsed, this`s
      ensures Mirrors()
      ensures s == old(s).(counter := old(s).counter[b := count], next := Inserted(old(s), b), slots := old(s).slots + 1)
      ensures slotsUsed == old(slotsUsed) + 1
    {
      s := s.(counter := s.counter[b := count], next := Inserted(s, b), slots := s.slots + 1);
      if tailBlock.None? {
        next := next[b := b];
      } else {
        next := next[b := next[tailBlock.value]][tailBlock.value := b];
      }
      counter := counter[b := count];
      slotsUsed := slotsUsed + 1;
    }

    /** Block b goes into the ring after the tail block, and into the index. */
    method AddNew(k: nat, b: Block, count: nat)
      requires Valid() && AtTail(s) && k == |s.blocks| && NotInRing(s, b) && b < created && b !in free
      requires s.tables != [] && slotsUsed < indexSize
      modifies this`next, this`counter, this`slotsUsed, this`tables, this`indexFront, this`tailBlock, this`s
      ensures Valid() && AddedTo(old(s), s, b, count) && slotsUsed == old(slotsUsed) + 1 && tables != []
      ensures U.Made(old(s), s, U.AddBlock(b, count))
      ensures |tables| == old(|tables|)
    {
      hide Inv, RingLinked, OwnsRing, HeaderOk, NotInRing;
      NewestOfInv(s);
      AddKeepsInv(s, b, count);
      AddRingLinked(s, b, count);
      AddFacts(s, b, count, free, created);
      ghost var s' := Add(s, b, count).(next := Inserted(s, b));
      hide AddedTo, Inserted;
      LinkNew(b, count);
      StoreEntry(k, b, s');
    }

    // ---------- enqueue ----------

    /** The block ahead is empty: use it again. */
    method Reuse(k: nat)
      requires Valid() && Settled(s) && k == |s.blocks| && s.tailBlock.Some? && OldestIsDone(s)
      modifies this`tables, this`indexFront, this`tailBlock, this`counter, this`headIndex, this`flights, this`s
      ensures Valid() && OneMore(old(s), s) && AtTail(s)
      ensures |tables| == old(|tables|)
    {
      hide Valid, Inv, RingLinked, Settled, HeaderOk, Untouched, Since, U.Made;
      InvOfValid();
      ghost var s0 := s;
      SettledFacts(s0);
      TakeNext(k);
      InvOfValid();
      TookFacts(s0, s);
      ghost var s1 := s;
      Interfere();
      InvOfValid();
      ConsumersKeep(s1, s);
      ghost var s2 := s;
      ResetEmpty(tailBlock.value, k);
      InvOfValid();
      ResetFacts(s0, s1, s2, k);
    }

    /** The new block is in front, for consumers. */
    method Expose(ghost s0: State<T>)
      requires Valid() && OneMore(s0, s)
      modifies this`fronts, this`counter, this`headIndex, this`flights, this`s
      ensures Valid() && Began(s0, s) && s.blocks == old(s).blocks && s.tailBlock == old(s).tailBlock
    {
      hide Valid, Inv, RingLinked, HeaderOk, Untouched, Since, U.Made;
      InvOfValid();
      ghost var s1 := s;
      Interfere();
      InvOfValid();
      OneMoreStays(s0, s1, s);
      ghost var s2 := s;
      NewestOfInv(s);
      StoreFrontSlot();
      InvOfValid();
      ExposedFacts(s0, s2);
    }

    /** There is no empty block ahead: check for room, make room in the index, and get a block. */
    method Grow(k: nat, canAlloc: bool) returns (ok: bool)
      requires Valid() && Settled(s) && k == |s.blocks| && s.kept == Oldest(s)
      modifies this
      ensures Valid() && (if ok then OneMore(old(s), s) && AtTail(s) else Settled(s) && Unchanged(old(s), s))
      ensures undisturbed ==> Sound(old(Supplies(canAlloc))) && (ok <==> Obtainable(old(Supplies(canAlloc)), k, 1))
      ensures !canAlloc ==> Heap() == old(Heap())
    {
      hide Valid, Inv, RingLinked, Settled, HeaderOk, Untouched, OneMore, NotInRing, Unchanged, U.Made, I.Full, Obtainable;
      InvOfValid();
      SuppliesAreSound(canAlloc);
      OneExact(Supplies(canAlloc), k);
      ghost var s0 := s;
      SettledFacts(s0);
      Interfere();
      InvOfValid();
      UnchangedBy(s0, s);
      if I.Full(headIndex, Base(k, size), size, limit, width) {
        return false;
      }
      if tables == [] || slotsUsed == indexSize {
        if !canAlloc {
          return false;
        }
        ghost var s1 := s;
        ok := NewBlockIndex(slotsUsed);
        if !ok {
          return;
        }
        UnchangedByGrowth(s0, s1, s, indexSize, slotsUsed);
        InvOfValid();
      } else {
        RoomInIndex();
      }
      ok := Inject(k, canAlloc, s0);
    }

    /** A block from the pool goes into the ring. */
    method Inject(k: nat, canAlloc: bool, ghost s0: State<T>) returns (ok: bool)
      requires Valid() && s0.size > 0 && Settled(s0) && Unchanged(s0, s) && k == |s.blocks|
      requires s.tables != [] && slotsUsed < indexSize
      modifies this
      ensures Valid() && (if ok then OneMore(s0, s) && AtTail(s) else Settled(s) && Unchanged(s0, s))
      ensures undisturbed ==> (ok <==> old(free) != {} || (canAlloc && old(memory) > 0))
      ensures !canAlloc ==> Heap() == old(Heap())
    {
      hide Valid, Inv, RingLinked, Settled, HeaderOk, Untouched, OneMore, NotInRing, Unchanged, U.Made;
      InvOfValid();
      UnchangedSettles(s0, s);
      ghost var s1 := s;
      var b := Requisition(canAlloc);
      if b.None? {
        return false;
      }
      AddNew(k, b.value, 0);
      InvOfValid();
      AddedFacts(s0, s1, s, b.value);
      ok := true;
    }

    /** Start the block of number k: the one ahead if it is empty, or a new one. */
    method NextBlock(k: nat, canAlloc: bool) returns (ok: bool)
      requires Valid() && Settled(s) && k == |s.blocks|
      modifies this
      ensures Valid()
      ensures if ok then Began(old(s), s) && AtTail(s) && |s.blocks| == k + 1 else Settled(s) && Unchanged(old(s), s)
      ensures 0 <= Oldest(old(s)) && (undisturbed ==>
                && Sound(old(Supplies(canAlloc)))
                && (ok <==> LooksEmpty(old(s), Oldest(old(s))) || Obtainable(old(Supplies(canAlloc)), k, 1))
                && (LooksEmpty(old(s), Oldest(old(s))) ==> free == old(free) && Heap() == old(Heap())))
      ensures !canAlloc ==> Heap() == old(Heap())
    {
      hide Valid, Inv, RingLinked, Settled, HeaderOk, Untouched, OneMore, Unchanged, OldestIsDone, Sound, Obtainable, LooksEmpty,
           Supplies;
      InvOfValid();
      ghost var s0 := s;
      SettledFacts(s0);
      AheadFacts(s0);
      AheadLooksEmpty(s0);
      SuppliesAreSound(canAlloc);
      if tailBlock.Some? && counter[next[tailBlock.value]] == size {
        Reuse(k);
      } else {
        ok := Grow(k, canAlloc);
        if !ok {
          return;
        }
      }
      OneMoreFacts(s0, s);
      Expose(s0);
      BeganFacts(s0, s);
      ok := true;
    }

    /**
     Enqueue one element. A new block is needed only at the start of a block; when there is none, nothing of the
     producer's has changed but perhaps the size of the index. If nobody else does anything meanwhile, there is one exactly
     if the block ahead is empty or a new one can be had. Without leave to allocate, nothing is allocated.
     */
    method Enqueue(x: T, canAlloc: bool) returns (ok: bool)
      requires Valid() && Settled(s)
      modifies this
      ensures Valid() && Settled(s) && s.items == old(s).items + (if ok then [x] else [])
      ensures !ok ==> Unchanged(old(s), s) && old(tailIndex) % size == 0
      ensures 0 <= Oldest(old(s)) && (undisturbed ==>
                && Sound(old(Supplies(canAlloc)))
                && (ok <==> old(tailIndex) % size != 0 || LooksEmpty(old(s), Oldest(old(s)))
                            || Obtainable(old(Supplies(canAlloc)), |old(s).blocks|, 1))
                && (old(tailIndex) % size != 0 || LooksEmpty(old(s), Oldest(old(s))) ==> free == old(free) && Heap() == old(Heap())))
      ensures !canAlloc ==> Heap() == old(Heap())
    {
      hide Valid, Inv, RingLinked, Settled, Began, Unchanged, Base, Number, Blocks, Offset, Sound, Obtainable, LooksEmpty, Supplies;
      SuppliesAreSound(canAlloc);
      ghost var s0 := s;
      InvOfValid();
      SettledFacts(s0);
      AlignedAtBase(tailIndex, size);
      BlocksAfterOne(tailIndex, size);
      ok := true;
      if tailIndex % size == 0 {
        ok := NextBlock(Number(tailIndex, size), canAlloc);
        InvOfValid();
        if !ok {
          UnchangedSettles(s0, s);
          return;
        }
        BeganFacts(s0, s);
      } else {
        BeganAtOnce(s0);
      }
      WriteAndPublish(s0, x);
    }

    /** Construct the element in the tail block, and move the tail. */
    method WriteAndPublish(ghost s0: State<T>, x: T)
      requires Valid() && Began(s0, s) && AtTail(s) && |s.blocks| == Blocks(tailIndex + 1, size)
      modifies this`cells, this`tailIndex, this`counter, this`headIndex, this`flights, this`s
      ensures Valid() && Settled(s) && s.items == s0.items + [x]
    {
      hide Valid, Inv, RingLinked, Began, Constructed, Base, Number, Blocks, Offset, ByConsumers, U.Made;
      InvOfValid();
      BeganFacts(s0, s);
      BlocksAfterOne(tailIndex, size);
      BlocksBounds(tailIndex + 1, size);
      Writable(s0, s, tailIndex);
      TailIsLast(s);
      ghost var s1 := s;
      NothingConstructed(s, [x]);
      ConstructAt(tailBlock.value, tailIndex, x);
      InvOfValid();
      ConstructedOneMore(s0, s1, [x], 0);
      ghost var s2 := s;
      Interfere();
      InvOfValid();
      ConstructedStays(s0, s2, s, [x], 1);
      BeganFacts(s0, s);
      NewestOfInv(s);
      StoreTailIndex(tailIndex + 1, [x]);
      InvOfValid();
    }

    // ---------- bulk enqueue: the blocks ----------

    /** Take the block ahead, for a bulk enqueue: its counter is not reset yet. */
    method TakeAhead(k: nat, ghost s0: State<T>, ghost m: nat)
      requires Valid() && Taking(s0, s, m) && k == |s.blocks| && s.tailBlock.Some? && OldestIsDone(s) && Oldest(s) < s.published
      modifies this`tables, this`indexFront, this`tailBlock, this`counter, this`headIndex, this`flights, this`s
      ensures Valid() && Taking(s0, s, m + 1) && old(s).blocks <= s.blocks
      ensures undisturbed ==> s.counter == old(s).counter && headIndex == old(headIndex)
      ensures |tables| == old(|tables|)
    {
      hide Valid, Inv, RingLinked, OldestIsDone, Taking, U.Made;
      ghost var s1 := s;
      InvOfValid();
      Interfere();
      InvOfValid();
      TakingStays(s0, s1, s, m);
      TakingAhead(s0, s1, s, m);
      ConsumersKeep(s1, s);
      TakingFacts(s0, s, m);
      ghost var s2 := s;
      TakeNext(k);
      InvOfValid();
      TakingOne(s0, s2, s, m);
    }

    /** `diff` is how far the bases are from those of the `last` blocks needed; `current` is the base of the last block there is. */
    ghost predicate OnTheWay(diff: int, current: int, last: nat)
      reads this
    {
      |s.blocks| <= last && diff == Base(last, size) - Base(|s.blocks|, size) && current + size == Base(|s.blocks|, size)
    }

    lemma BlocksToGo(diff: int, current: int, last: nat)
      requires size > 0 && s.size == size && OnTheWay(diff, current, last)
      ensures |s.blocks| <= last && (diff > 0 <==> |s.blocks| < last)
    {
      BaseApart(|s.blocks|, last, size);
    }

    /** The block ahead is empty and needed: take it. */
    method TakeOne(first0: Option<Block>, diff0: int, current0: int, ghost last: nat, ghost s0: State<T>, ghost m: nat)
      returns (first: Option<Block>, diff: int, current: int)
      requires Valid() && Taking(s0, s, m) && OnTheWay(diff0, current0, last) && diff0 > 0
      requires first0 == if m == 0 then None else Some(s.blocks[|s0.blocks|])
      requires tailBlock.Some? && tailBlock.value in next && next[tailBlock.value] in counter
      requires Some(next[tailBlock.value]) != first0 && counter[next[tailBlock.value]] == size
      modifies this`tables, this`indexFront, this`tailBlock, this`counter, this`headIndex, this`flights, this`s
      ensures Valid() && Taking(s0, s, m + 1) && OnTheWay(diff, current, last) && diff < diff0
      ensures |s.blocks| == |s0.blocks| + m + 1 && first == Some(s.blocks[|s0.blocks|])
      ensures undisturbed && 0 <= Oldest(s0) && old(s).counter == s0.counter && Ahead(s0, m, last - |s0.blocks|) ==>
                headIndex == old(headIndex) && s.counter == s0.counter && Ahead(s0, m + 1, last - |s0.blocks|)
      ensures |tables| == old(|tables|)
    {
      hide Valid, Inv, RingLinked, OldestIsDone, Taking, Base, Number, Ahead;
      InvOfValid();
      StopsTaking(s0, s, m);
      TakingFacts(s0, s, m);
      BaseApart(|s.blocks|, last, size);
      BaseStep(|s.blocks|, size);
      NumberOfBase(|s.blocks|, size);
      diff, current := diff0 - size, current0 + size;
      if undisturbed && 0 <= Oldest(s0) && s.counter == s0.counter && Ahead(s0, m, last - |s0.blocks|) {
        AheadOne(s0, s, m, last - |s0.blocks|);
      }
      TakeAhead(Number(current, size), s0, m);
      InvOfValid();
      TakingFacts(s0, s, m + 1);
      TailIsLast(s);
      first := if first0.None? then tailBlock else first0;
    }

    /** Blocks from ahead, as long as they are empty and needed. */
    method GatherUsed(diff0: int, current0: int, ghost last: nat)
      returns (first: Option<Block>, diff: int, current: int)
      requires Valid() && Settled(s) && OnTheWay(diff0, current0, last)
      modifies this`tables, this`indexFront, this`tailBlock, this`counter, this`headIndex, this`flights, this`s
      ensures Valid() && |old(s).blocks| <= |s.blocks| && Taking(old(s), s, |s.blocks| - |old(s).blocks|)
      ensures OnTheWay(diff, current, last)
      ensures first == if |s.blocks| == |old(s).blocks| then None else Some(s.blocks[|old(s).blocks|])
      ensures |s.blocks| < last ==> s.kept == Oldest(s)
      ensures |s.blocks| == |old(s).blocks| ==> s.kept == old(s).kept
      ensures 0 <= Oldest(old(s))
      ensures undisturbed ==> headIndex == old(headIndex)
      ensures undisturbed ==> |s.blocks| - |old(s).blocks| == EmptyFrom(old(s), Oldest(old(s)), last - |old(s).blocks|)
      ensures |tables| == old(|tables|)
    {
      hide Valid, Inv, RingLinked, OldestIsDone, Taking, Settled, Base, Number, Ahead, EmptyFrom;
      InvOfValid();
      ghost var s0 := s;
      ghost var m, needed := 0, last - |s.blocks|;
      TakingStarts(s0);
      SettledFacts(s0);
      StopsTaking(s0, s, 0);
      AheadStarts(s0, needed);
      first, diff, current := None, diff0, current0;
      while diff > 0 && tailBlock.Some? && Some(next[tailBlock.value]) != first && counter[next[tailBlock.value]] == size
        invariant Valid() && |s.blocks| == |s0.blocks| + m && Taking(s0, s, m) && OnTheWay(diff, current, last)
        invariant first == if m == 0 then None else Some(s.blocks[|s0.blocks|])
        invariant |tables| == old(|tables|) && (m == 0 ==> s.kept == s0.kept)
        invariant undisturbed ==> headIndex == old(headIndex) && s.counter == s0.counter && Ahead(s0, m, needed)
        invariant tailBlock.Some? ==> tailBlock.value in next && next[tailBlock.value] in counter
        decreases diff
      {
        first, diff, current := TakeOne(first, diff, current, last, s0, m);
        m := m + 1;
        InvOfValid();
        StopsTaking(s0, s, m);
      }
      InvOfValid();
      StopsTaking(s0, s, m);
      BaseApart(|s.blocks|, last, size);
      if undisturbed {
        AheadEnds(s0, s, m, needed);
      }
    }

    /** A slot in the index for one more block: the index grows when it is full. */
    method EnsureSlot(full: bool, exposed: nat, canAlloc: bool, ghost s0: State<T>, ghost m: nat, ghost injected: nat, grew: bool)
      returns (ok: bool, grew': bool)
      requires Valid() && Progress(s0, s, m, injected, grew) && s.kept == Oldest(s)
      requires exposed <= s.slots && (s.published > 0 ==> exposed > 0)
      modifies this`tables, this`fronts, this`indexSize, this`indexFront, this`memory, this`s
      ensures Valid() && Progress(s0, s, m, injected, grew') && s.kept == Oldest(s) && s.blocks == old(s).blocks
      ensures s.slots == old(s).slots
      ensures ok ==> s.tables != [] && slotsUsed < indexSize
      ensures undisturbed ==> var r := old(Supplies(canAlloc));
                && (ok <==> !full && CanEnter(r))
                && (ok ==> Supplies(canAlloc) == Grown(r))
                && (grew' <==> grew || (ok && !(r.indexed && r.slots < r.capacity)))
      ensures !canAlloc ==> Heap() == old(Heap())
    {
      hide Valid, Inv, RingLinked, Progress, Enlarged, U.Made;
      InvOfValid();
      SuppliesAreSound(canAlloc);
      ghost var s1 := s;
      grew' := grew;
      if tables == [] || slotsUsed == indexSize || full {
        if !canAlloc || full {
          return false, grew;
        }
        ok := NewBlockIndex(exposed);
        if ok {
          ProgressGrows(s0, s1, s, m, injected, grew, indexSize, exposed);
          InvOfValid();
          grew' := true;
        }
      } else {
        RoomInIndex();
        ok := true;
      }
    }

    /** One more block from the pool. */
    method InjectOne(k: nat, exposed: nat, canAlloc: bool, ghost s0: State<T>, ghost m: nat, ghost injected: nat, grew: bool)
      returns (b: Option<Block>, grew': bool)
      requires Valid() && Progress(s0, s, m, injected, grew) && s.kept == Oldest(s) && k == |s.blocks|
      requires exposed <= s.slots && (s.published > 0 ==> exposed > 0)
      modifies this
      ensures Valid() && old(s).blocks <= s.blocks && s.kept == Oldest(s)
      ensures if b.Some? then Progress(s0, s, m, injected + 1, grew') && s.tailBlock == b else Progress(s0, s, m, injected, grew')
      ensures undisturbed ==> var r := old(Supplies(canAlloc));
                && Sound(r) && (b.Some? <==> Obtainable(r, k, 1))
                && (b.Some? ==> Supplies(canAlloc) == Less(r))
                && (b.None? ==> (grew' <==> grew || GrowsInVain(r, k)))
      ensures !canAlloc ==> Heap() == old(Heap())
    {
      hide Valid, Inv, RingLinked, Progress, AddedTo, NotInRing, U.Made, Obtainable, GrowsInVain, Grown, Put, I.Full;
      InvOfValid();
      SuppliesAreSound(canAlloc);
      ghost var r := Supplies(canAlloc);
      ghost var s1 := s;
      Interfere();
      InvOfValid();
      ProgressStays(s0, s1, s, m, injected, grew);
      var full := I.Full(headIndex, Base(k, size), size, limit, width);
      var ok;
      ok, grew' := EnsureSlot(full, exposed, canAlloc, s0, m, injected, grew);
      b := None;
      if ok {
        InvOfValid();
        ProgressFacts(s0, s, m, injected, grew');
        b := PutNew(k, canAlloc, s0, m, injected, grew');
      }
      if undisturbed {
        OneTried(r, k, ok, b.Some?);
      }
    }

    /** A block from the pool goes into the ring; it looks empty until it is reset. */
    method PutNew(k: nat, canAlloc: bool, ghost s0: State<T>, ghost m: nat, ghost injected: nat, ghost grew: bool)
      returns (b: Option<Block>)
      requires Valid() && Progress(s0, s, m, injected, grew) && AtTail(s) && s.kept == Oldest(s) && k == |s.blocks|
      requires s.tables != [] && slotsUsed < indexSize
      modifies this
      ensures Valid() && old(s).blocks <= s.blocks && s.kept == Oldest(s)
      ensures if b.Some? then Progress(s0, s, m, injected + 1, grew) && s.tailBlock == b else Progress(s0, s, m, injected, grew)
      ensures undisturbed ==> var r := old(Supplies(canAlloc));
                && (b.Some? <==> r.pool > 0 || (canAlloc && r.memory > 0))
                && (b.Some? ==> Supplies(canAlloc) == Put(r))
      ensures !canAlloc ==> Heap() == old(Heap())
    {
      hide Valid, Inv, RingLinked, Progress, AddedTo, NotInRing, U.Made;
      InvOfValid();
      ghost var s1 := s;
      b := Requisition(canAlloc);
      if b.Some? {
        AddNew(k, b.value, size);
        InvOfValid();
        ProgressAdds(s0, s1, s, m, injected, grew, b.value, size);
      }
    }

    /** One more block is needed: get it from the pool. */
    method AddOne(first0: Option<Block>, diff0: int, current0: int, exposed: nat, canAlloc: bool, ghost last: nat,
                  ghost s0: State<T>, ghost m: nat, ghost injected: nat, grew0: bool)
      returns (ok: bool, first: Option<Block>, diff: int, current: int, grew: bool)
      requires Valid() && Progress(s0, s, m, injected, grew0) && s.kept == Oldest(s) && OnTheWay(diff0, current0, last) && diff0 > 0
      requires exposed == s0.slots && (s0.blocks != [] ==> exposed > 0)
      requires first0 == if |s.blocks| == |s0.blocks| then None else Some(s.blocks[|s0.blocks|])
      modifies this
      ensures Valid() && s.kept == Oldest(s) && old(|s.blocks|) < last
      ensures |s.blocks| == |s0.blocks| + m + injected + (if ok then 1 else 0)
      ensures if ok then Progress(s0, s, m, injected + 1, grew) && OnTheWay(diff, current, last) && diff < diff0
              else Progress(s0, s, m, injected, grew)
      ensures |s.blocks| >= |s0.blocks| && first == if |s.blocks| == |s0.blocks| then None else Some(s.blocks[|s0.blocks|])
      ensures undisturbed ==> var r := old(Supplies(canAlloc));
                && Sound(r) && (ok <==> Obtainable(r, old(|s.blocks|), 1))
                && (ok ==> Supplies(canAlloc) == Less(r))
                && (!ok ==> (grew <==> grew0 || GrowsInVain(r, old(|s.blocks|))))
      ensures !canAlloc ==> Heap() == old(Heap())
    {
      hide Valid, Inv, RingLinked, Progress, Gathered, Taking, Unchanged, AtTail, Since, Base, Number,
           Sound, Obtainable, GrowsInVain, Less, Heap;
      InvOfValid();
      ProgressFacts(s0, s, m, injected, grew0);
      BaseApart(|s.blocks|, last, size);
      BaseStep(|s.blocks|, size);
      NumberOfBase(|s.blocks|, size);
      diff, current := diff0 - size, current0 + size;
      var b;
      b, grew := InjectOne(Number(current, size), exposed, canAlloc, s0, m, injected, grew0);
      InvOfValid();
      ok, first := b.Some?, first0;
      if ok {
        ProgressFacts(s0, s, m, injected + 1, grew);
        TailIsLast(s);
        first := if first.None? then b else first;
      } else {
        ProgressFacts(s0, s, m, injected, grew);
      }
    }

    /** The rest of the blocks from the pool. */
    method GatherNew(exposed: nat, first0: Option<Block>, diff0: int, current0: int, canAlloc: bool,
                     ghost s0: State<T>, ghost m: nat, ghost last: nat)
      returns (ok: bool, first: Option<Block>, ghost injected: nat, grew: bool)
      requires Valid() && Progress(s0, s, m, 0, false) && exposed == s0.slots
      requires s0.blocks != [] ==> exposed > 0
      requires |s.blocks| < last ==> s.kept == Oldest(s)
      requires OnTheWay(diff0, current0, last)
      requires first0 == if |s.blocks| == |s0.blocks| then None else Some(s.blocks[|s0.blocks|])
      modifies this
      ensures Valid() && Progress(s0, s, m, injected, grew) && |s.blocks| <= last && (ok <==> |s.blocks| == last)
      ensures |s.blocks| >= |s0.blocks| && first == if |s.blocks| == |s0.blocks| then None else Some(s.blocks[|s0.blocks|])
      ensures !ok ==> s.kept == Oldest(s)
      ensures old(|s.blocks|) <= last
      ensures undisturbed ==>
                Yields(old(Supplies(canAlloc)), old(|s.blocks|), last - old(|s.blocks|), ok, injected, grew)
      ensures !canAlloc ==> Heap() == old(Heap())
    {
      hide Valid, Inv, RingLinked, Progress, Gathered, Taking, Unchanged, AtTail, Since, Settled, Base, Number,
           Sound, Obtainable, GrowsInVain, Less, Leaves, Yields, Supplies, OnTheWay, Heap;
      InvOfValid();
      SuppliesAreSound(canAlloc);
      ghost var r, k := Supplies(canAlloc), |s.blocks|;
      LeavesAll(r, k);
      ok, first, injected, grew := true, first0, 0, false;
      var diff, current := diff0, current0;
      BlocksToGo(diff, current, last);
      ProgressFacts(s0, s, m, injected, grew);
      while diff > 0
        invariant Valid() && Progress(s0, s, m, injected, grew) && |s.blocks| == k + injected && k == |s0.blocks| + m
        invariant |s.blocks| < last ==> s.kept == Oldest(s)
        invariant OnTheWay(diff, current, last)
        invariant first == if |s.blocks| == |s0.blocks| then None else Some(s.blocks[|s0.blocks|])
        invariant !canAlloc ==> Heap() == old(Heap())
        invariant undisturbed ==> Leaves(r, k, injected, Supplies(canAlloc)) && (injected == 0 ==> !grew && Supplies(canAlloc) == r)
        decreases diff
      {
        InvOfValid();
        ghost var r' := Supplies(canAlloc);
        BlocksToGo(diff, current, last);
        ok, first, diff, current, grew := AddOne(first, diff, current, exposed, canAlloc, last, s0, m, injected, grew);
        if !ok {
          if undisturbed {
            YieldsNoMore(r, k, injected, r', last - k, grew);
          }
          return;
        }
        if undisturbed {
          LeavesOne(r, k, injected, r');
        }
        injected := injected + 1;
      }
      InvOfValid();
      BlocksToGo(diff, current, last);
      if undisturbed {
        YieldsAll(r, k, injected, Supplies(canAlloc), grew);
      }
    }

    // ---------- bulk enqueue: the elements ----------

    method SetTailBlock(b: Option<Block>)
      requires Valid()
      modifies this`tailBlock, this`s
      ensures Valid() && s == old(s).(tailBlock := b)
      ensures U.Made(old(s), s, U.SetTail(b))
    {
      hide Inv, RingLinked, OwnsRing;
      TailDoesNotMatter(s, b);
      tailBlock := b;
      s := s.(tailBlock := b);
    }

    /** Reset the counters of the new blocks, from the first one along the chain. */
    method ResetAll(first: Block, ghost s0: State<T>)
      requires Valid() && Gathered(s0, s) && s.published < |s.blocks| && first == s.blocks[s.published]
      modifies this`counter, this`headIndex, this`flights, this`s
      ensures Valid() && Gathered(s0, s) && ResetFrom(s, s.published, |s.blocks|) && s.blocks == old(s).blocks
    {
      hide Valid, Inv, RingLinked, Gathered, ResetFrom, Reset, ByConsumers, U.Made;
      var block := first;
      InvOfValid();
      GatheredFacts(s0, s);
      ResetNone(s);
      ghost var n, q: nat := |s.blocks|, s.published;
      while true
        invariant s.blocks == old(s).blocks && s.published == old(s).published && s.published <= q < n == |s.blocks|
        invariant Valid() && Gathered(s0, s) && ResetFrom(s, s.published, q) && block == s.blocks[q]
        decreases n - q
      {
        InvOfValid();
        GatheredFacts(s0, s);
        ghost var s1 := s;
        ResetEmpty(block, q);
        ResetFromOne(s0, s1, q);
        ghost var s2 := s;
        InvOfValid();
        Interfere();
        InvOfValid();
        ResetFromStays(s0, s2, s, q + 1);
        ChainStep(s, q);
        TailIsLast(s);
        GatheredFacts(s0, s);
        if Some(block) == tailBlock {
          break;
        }
        block := next[block];
        q := q + 1;
      }
    }

    /** The elements that go to one block, from `from` up to `stop`. */
    method WriteBlock(xs: seq<T>, start: nat, from: nat, stop: nat, ghost s0: State<T>, ghost q: nat)
      requires Valid() && start == |s.items| && start <= from <= stop <= start + |xs|
      requires q < |s.blocks| && s.tailBlock == Some(s.blocks[q]) && Writing(s0, s, xs, from - start)
      requires Base(q, size) <= from && stop <= Base(q, size) + size
      modifies this`cells, this`counter, this`headIndex, this`flights, this`s
      ensures Valid() && s.items == old(s).items && s.next == old(s).next && s.tailBlock == old(s).tailBlock
      ensures s.size == size && s.blocks == old(s).blocks && Writing(s0, s, xs, stop - start)
    {
      hide Valid, Inv, RingLinked, Writing, ByConsumers, Base, Number, Blocks, U.Made;
      var current := from;
      InvOfValid();
      while current != stop
        invariant s.size == size && s.items == old(s).items && s.next == old(s).next && s.tailBlock == old(s).tailBlock
        invariant Valid() && from <= current <= stop && s.blocks == old(s).blocks && Writing(s0, s, xs, current - start)
        decreases stop - current
      {
        InvOfValid();
        NumberUnique(current, q, size);
        WritingOneMore(s0, s, xs, current - start, q);
        ConstructAt(tailBlock.value, current, xs[current - start]);
        current := current + 1;
        ghost var s1 := s;
        InvOfValid();
        Interfere();
        InvOfValid();
        WritingStays(s0, s1, s, xs, current - start);
      }
    }

    /** One block at a time, along the chain from the tail block to `endBlock`. */
    method WriteAll(xs: seq<T>, endBlock: Option<Block>, ghost s0: State<T>)
      requires Valid() && Writing(s0, s, xs, 0)
      requires endBlock == if s.blocks == [] then None else Some(s.blocks[|s.blocks| - 1])
      requires if xs == [] then s.tailBlock == endBlock
               else Number(|s.items|, size) < |s.blocks| && s.tailBlock == Some(s.blocks[Number(|s.items|, size)])
      modifies this`cells, this`tailBlock, this`counter, this`headIndex, this`flights, this`s
      ensures Valid() && s.size == size && s.items == old(s).items && Writing(s0, s, xs, |xs|) && AtTail(s)
    {
      hide Valid, Inv, RingLinked, Writing, ByConsumers, Base, Number, Blocks, MaskDown, U.Made;
      InvOfValid();
      var start, newTail := tailIndex, tailIndex + |xs|;
      var current := start;
      if xs == [] {
        return;
      }
      WritingFacts(s0, s, xs, 0);
      I.WalkBounds(start, |xs|, |s.blocks|, size);
      ghost var q, n: nat := Number(start, size), |s.blocks|;
      while true
        invariant s.size == size && s.items == old(s).items && s.blocks == old(s).blocks && q < n == |s.blocks|
        invariant Valid() && start <= current < newTail && Writing(s0, s, xs, current - start)
        invariant s.tailBlock == Some(s.blocks[q]) && Number(current, size) == q && Number(start, size) <= q
        decreases n - q
      {
        InvOfValid();
        NumberBounds(current, size);
        OffsetIsRemainder(current, size);
        var stopIndex := MaskDown(current, size) + size;
        if newTail < stopIndex {
          stopIndex := newTail;
        }
        WritingFacts(s0, s, xs, current - start);
        WriteBlock(xs, start, current, stopIndex, s0, q);
        NumberUnique(stopIndex - 1, q, size);
        current := stopIndex;
        InvOfValid();
        WrittenInRing(s0, s, xs, current - start, q);
        ChainStep(s, q);
        I.WalkReaches(newTail, n, q, current, size);
        if tailBlock == endBlock {
          break;
        }
        ghost var s1 := s;
        SetTailBlock(Some(next[tailBlock.value]));
        WritingMoves(s0, s1, xs, current - start, s.tailBlock);
        q := q + 1;
      }
    }

    // ---------- bulk enqueue ----------

    /** Everything is ready to be filled: reset the new blocks and let consumers start from the last one. */
    method ExposeAll(first: Option<Block>, ghost s0: State<T>)
      requires Valid() && s0.size == size && Inv(s0) && Settled(s0) && Gathered(s0, s)
      requires first == if |s.blocks| == |s0.blocks| then None else Some(s.blocks[|s0.blocks|])
      requires first.None? ==> Unchanged(s0, s)
      modifies this`fronts, this`counter, this`headIndex, this`flights, this`s
      ensures Valid() && Began(s0, s) && AtTail(s) && s.blocks == old(s).blocks
    {
      hide Valid, Inv, RingLinked, Gathered, Began, Settled, HeaderOk, ResetFrom, Unchanged, U.Made;
      InvOfValid();
      GatheredFacts(s0, s);
      if first.None? {
        UnchangedSettles(s0, s);
        BeganAtOnce(s);
        BeganFrom(s0, s);
        return;
      }
      ResetAll(first.value, s0);
      InvOfValid();
      GatheredFacts(s0, s);
      NewestOfInv(s);
      ghost var s1 := s;
      StoreFrontSlot();
      InvOfValid();
      GatheredBegins(s0, s1);
    }

    /** The bulk enqueue has failed: the fields it saved are set back. */
    method Undo(startBlock: Option<Block>, first: Option<Block>, startFront: nat, startSlots: nat, grew: bool,
                ghost s0: State<T>, ghost m: nat, ghost injected: nat)
      requires Valid() && Inv(s0) && Settled(s0) && Progress(s0, s, m, injected, grew) && SavedFront(s0, startFront)
      requires startBlock == s0.tailBlock && startSlots == s0.slots && (|s.blocks| == |s0.blocks| ==> first == None)
      modifies this`tailBlock, this`slotsUsed, this`indexFront, this`s
      ensures injected == 0 && (!grew || m == 0) ==> Valid() && Settled(s) && SetBackTo(s0, s)
      ensures injected == 0 && !grew ==> U.Made(old(s), s, U.RestoreBlocks(s0, m))
      ensures injected > 0 || (grew && m > 0) ==> Inv(s) && RingLinked(s) && s == old(s) && next == s.next && tables == s.tables
      ensures injected > 0 || (grew && m > 0) ==> Astray(s0, s, slotsUsed, indexFront)
      ensures slotsUsed == startSlots && indexFront == (if grew then startSlots else startFront)
      ensures tailBlock == if startBlock.None? then first else startBlock
    {
      hide Inv, RingLinked, OwnsRing, Settled, Taking, Progress, Unchanged, Slot, HeaderOk, SetBackTo, Astray, KeepsTail,
           U.Made;
      SizeOfInv(s0);
      ProgressFacts(s0, s, m, injected, grew);
      if injected > 0 || (grew && m > 0) {
        UndoAstray(s0, s, m, injected, grew, startFront);
      } else if !grew {
        UndoTaken(s0, s, m, free, created, startFront, first);
        SettledLinks(Restored(s0, s));
        U.RestoreIsMade(s0, s, m);
      } else {
        UndoGrown(s0, s, first);
      }
      indexFront := if grew then startSlots else startFront;
      slotsUsed := startSlots;
      tailBlock := if startBlock.None? then first else startBlock;
      if injected == 0 && (!grew || m == 0) {
        s := Undone(s0, s, injected, grew);
      }
    }

    /**
     Enqueue all of xs or nothing. It takes the empty blocks ahead, as many as are there and needed, and then blocks from the
     pool, `added` of them; `grew` says whether the index has been made larger. A failure leaves elements, blocks, ring and
     slots as they were, unless a new block was put in the ring, or blocks were taken and the index grew: the ring and the
     index stay as they are, and only the saved fields are set back. If nobody else does anything meanwhile, all of this is
     determined by what the call finds. Without leave to allocate, nothing is allocated.
     */
    method EnqueueBulk(xs: seq<T>, canAlloc: bool) returns (ok: bool, ghost ahead: nat, ghost added: nat, ghost grew: bool)
      requires Valid() && Settled(s)
      modifies this
      ensures ok ==> Valid() && Settled(s) && s.items == old(s).items + xs
      ensures !ok && IsUndone(ahead, added, grew) ==> Valid() && Settled(s) && SetBackTo(old(s), s)
      ensures !ok && !IsUndone(ahead, added, grew) ==>
                && Inv(s) && RingLinked(s) && next == s.next && tables == s.tables && s.items == old(s).items
                && Progress(old(s), s, ahead, added, grew) && s.kept == Oldest(s)
                && slotsUsed == old(slotsUsed) && indexFront == (if grew then slotsUsed else old(indexFront))
                && s.blocks != [] && tailBlock == Some(TailSetBack(old(s), s)) && Astray(old(s), s, slotsUsed, indexFront)
      ensures |old(s).blocks| <= Blocks(|old(s).items| + |xs|, size)
      ensures var needed: nat := Blocks(|old(s).items| + |xs|, size) - |old(s).blocks|;
              && ahead + added <= needed && (ok <==> ahead + added == needed) && 0 <= Oldest(old(s))
              && (undisturbed ==>
                    && var r, k := old(Supplies(canAlloc)), |old(s).blocks| + ahead;
                    && ahead == EmptyFrom(old(s), Oldest(old(s)), needed)
                    && Sound(r) && (ok <==> Obtainable(r, k, needed - ahead))
                    && (!ok && !IsUndone(ahead, added, grew) <==> Diverges(r, k, ahead, needed - ahead)))
      ensures !canAlloc ==> Heap() == old(Heap())
    {
      hide Valid, Inv, RingLinked, Settled, Taking, Progress, Gathered, Began, Writing, Unchanged, SetBackTo, SavedFront, Astray,
           Base, Number, Blocks, MaskDown, Supplies, Sound, Obtainable, Diverges, EmptyFrom, Heap;
      ghost var s0 := s;
      InvOfValid();
      SettledFacts(s0);
      FrontOfValid();
      var start, startBlock, startFront, startSlots := tailIndex, tailBlock, indexFront, slotsUsed;
      var first, larger;
      ok, first, ahead, added, larger := Gather(xs, canAlloc, Blocks(start + |xs|, size));
      grew := larger;
      InvOfValid();
      ProgressFacts(s0, s, ahead, added, grew);
      if !ok {
        Undo(startBlock, first, startFront, startSlots, larger, s0, ahead, added);
      } else {
        ExposeAll(first, s0);
        BeganFacts(s0, s);
        Fill(xs, start, startBlock, first, s0);
      }
    }

    /** All the blocks that are needed to have `last` of them, or as many as can be had. */
    method Gather(xs: seq<T>, canAlloc: bool, ghost last: nat)
      returns (ok: bool, first: Option<Block>, ghost ahead: nat, ghost added: nat, grew: bool)
      requires Valid() && Settled(s) && last == Blocks(tailIndex + |xs|, size)
      modifies this
      ensures Valid() && Progress(old(s), s, ahead, added, grew) && (!ok ==> s.kept == Oldest(s))
      ensures first == if ahead + added == 0 then None else Some(s.blocks[|old(s).blocks|])
      ensures |old(s).blocks| + ahead + added <= last && (ok <==> |old(s).blocks| + ahead + added == last)
      ensures undisturbed ==>
                var r, k := old(Supplies(canAlloc)), |old(s).blocks| + ahead;
                && 0 <= Oldest(old(s)) && ahead == EmptyFrom(old(s), Oldest(old(s)), last - |old(s).blocks|)
                && Sound(r) && (ok <==> Obtainable(r, k, last - k))
                && (!ok && !IsUndone(ahead, added, grew) <==> Diverges(r, k, ahead, last - k))
      ensures !canAlloc ==> Heap() == old(Heap())
    {
      hide Valid, Inv, RingLinked, Settled, Taking, Progress, Blocks, Supplies, Sound, Obtainable, Diverges, Yields,
           EmptyFrom, OnTheWay, Heap;
      ghost var s0 := s;
      ghost var r := Supplies(canAlloc);
      var startSlots := slotsUsed;
      InvOfValid();
      SettledFacts(s0);
      var diff, current;
      first, diff, current := GatherAhead(xs, last);
      InvOfValid();
      ahead := |s.blocks| - |s0.blocks|;
      ProgressIsAtLeast(s0, s, ahead);
      TakingFacts(s0, s, ahead);
      ok, first, added, grew := GatherNew(startSlots, first, diff, current, canAlloc, s0, ahead, last);
      ProgressFacts(s0, s, ahead, added, grew);
      if undisturbed {
        YieldsDecide(r, |s0.blocks| + ahead, ahead, last - |s0.blocks| - ahead, ok, added, grew);
      }
    }

    /** How many blocks are needed, and the empty ones ahead of those. */
    method GatherAhead(xs: seq<T>, ghost last: nat) returns (first: Option<Block>, diff: int, current: int)
      requires Valid() && Settled(s) && last == Blocks(tailIndex + |xs|, size)
      modifies this`tables, this`indexFront, this`tailBlock, this`counter, this`headIndex, this`flights, this`s
      ensures |old(s).blocks| <= last && 0 <= Oldest(old(s))
      ensures Valid() && |old(s).blocks| <= |s.blocks| && Taking(old(s), s, |s.blocks| - |old(s).blocks|)
      ensures OnTheWay(diff, current, last)
      ensures first == if |s.blocks| == |old(s).blocks| then None else Some(s.blocks[|old(s).blocks|])
      ensures |s.blocks| < last ==> s.kept == Oldest(s)
      ensures |s.blocks| == |old(s).blocks| ==> s.kept == old(s).kept
      ensures undisturbed ==> |s.blocks| - |old(s).blocks| == EmptyFrom(old(s), Oldest(old(s)), last - |old(s).blocks|)
      ensures undisturbed ==> forall canAlloc :: Supplies(canAlloc) == old(Supplies(canAlloc))
      ensures Heap() == old(Heap())
    {
      hide Valid, Inv, RingLinked, Settled, Taking, Base, Number, Blocks, MaskDown, EmptyFrom;
      InvOfValid();
      SettledFacts(s);
      ghost var s0 := s;
      var start := tailIndex;
      MaskDownBefore(start, size);
      MaskDownBefore(start + |xs|, size);
      BlocksMonotone(start, start + |xs|, size);
      var before := MaskDown(start - 1, size);
      first, diff, current := GatherUsed(MaskDown(start + |xs| - 1, size) - before, before, last);
      InvOfValid();
      TakingFacts(s0, s, |s.blocks| - |s0.blocks|);
    }

    /** The blocks are ready: write the elements and publish them. */
    method Fill(xs: seq<T>, start: nat, startBlock: Option<Block>, first: Option<Block>, ghost s0: State<T>)
      requires Valid() && Inv(s0) && Settled(s0) && Began(s0, s) && AtTail(s) && start == |s.items|
      requires |s.blocks| == Blocks(start + |xs|, size) && startBlock == s0.tailBlock
      requires first == if |s.blocks| == |s0.blocks| then None else Some(s.blocks[|s0.blocks|])
      modifies this`cells, this`tailBlock, this`tailIndex, this`counter, this`headIndex, this`flights, this`s
      ensures Valid() && Settled(s) && s.items == s0.items + xs
    {
      hide Valid, Inv, RingLinked, Settled, Began, Writing, Constructed, Untouched, HasFrontEntry, HeaderOk, Base, Number, Blocks, U.Made;
      InvOfValid();
      BeganFacts(s0, s);
      WritingStarts(s0, s, xs, first);
      var endBlock := tailBlock;
      SetTailBlock(if start % size == 0 && first.Some? then first else startBlock);
      InvOfValid();
      WriteAll(xs, endBlock, s0);
      PublishAll(xs, start, s0);
    }

    /** The elements are in place: tailIndex.store. */
    method PublishAll(xs: seq<T>, start: nat, ghost s0: State<T>)
      requires Valid() && Writing(s0, s, xs, |xs|) && AtTail(s) && start == |s.items|
      modifies this`tailIndex, this`s
      ensures Valid() && Settled(s) && s.items == s0.items + xs
    {
      hide Valid, Inv, RingLinked, Settled, Began, Writing, Constructed, Untouched, HasFrontEntry, HeaderOk, Base, Number, Blocks, U.Made;
      InvOfValid();
      WritingFacts(s0, s, xs, |xs|);
      BeganFacts(s0, s);
      BlocksBounds(start + |xs|, size);
      NewestOfInv(s);
      FrontEntryFacts(s);
      StoreTailIndex(start + |xs|, xs);
      InvOfValid();
      PublishedSettles(s);
    }

    // ---------- construction ----------

    /** A new producer, with consumers that are not active. The first index may not be had. */
    constructor (size: nat, width: nat, limit: Option<nat>, indexSize: nat, consumers: nat, free: set<Block>, created: nat,
                 memory: nat, undisturbed: bool)
      requires size > 0 && width >= 1 && indexSize > 0 && forall b :: b in free ==> b < created
      ensures Valid() && Settled(s) && s.items == [] && s.head == 0 && s.blocks == [] && s.slots == 0
      ensures this.size == size && this.width == width && this.limit == limit && this.undisturbed == undisturbed && this.free == free
      ensures headIndex == slotsUsed == indexFront == 0 && (undisturbed ==> (tables != [] <==> memory > 0))
    {
      this.size, this.width, this.limit, this.undisturbed, this.memory := size, width, limit, undisturbed, memory;
      tailIndex, headIndex, tailBlock := 0, 0, None;
      tables, fronts, slotsUsed, this.indexSize, indexFront := [], [], 0, indexSize, 0;
      cells, counter, next := map[], map[], map[];
      flights := seq(consumers, _ => Idle);
      this.free, this.created := free, created;
      s := Initial(size, consumers);
      new;
      InitialIsSettled<T>(size, consumers);
      ghost var s0 := s;
      var ok := NewBlockIndex(0);
      if ok {
        UnchangedByGrowth(s0, s0, s, this.indexSize, 0);
        assert Slot(this.indexSize, 0, 0) == 0;
      }
    }
  }

  /**
   A bulk enqueue that fails and is not undone: a new producer, one block in the pool, no allocation, and elements for two
   blocks. The block stays in the ring and is not among the slots used; so, when as many blocks have been begun as the index
   has slots, and one more, a block that is in use has no entry, whichever blocks `bs` the pool yields.
   */
  method LeaveBlockBehind<T>(size: nat, width: nat, indexSize: nat, xs: seq<T>) returns (p: Producer<T>, ok: bool)
    requires width >= 1 && 0 < size < Pow2(width - 1) && indexSize > 0 && size < |xs| <= 2 * size
    ensures !ok && Inv(p.s) && p.s.items == [] && p.tables != [] && p.tables == p.s.tables
    ensures p.slotsUsed == 0 && |p.s.blocks| == p.s.slots == 1
    ensures Follows(p.next, p.tailBlock, p.s.blocks)
    ensures var f := Fields(p.tables[|p.tables| - 1], p.indexFront, p.slotsUsed, 0, p.s.blocks, 1);
            && Ready(f) && StartsLeft(f) == |f.table| + 1
            && forall bs: seq<Block> :: |bs| == StartsLeft(f) && NoRepeats(f.ring + bs) ==> LosesEntry(f, bs)
  {
    hide Producer<T>.Valid, Inv, RingLinked, Settled, Progress, EmptyFrom, Diverges, Obtainable, Astray, SetBackTo, Blocks, TailSetBack,
         Follows, LosesEntry, NoRepeats;
    p := new Producer(size, width, None, indexSize, 0, {0}, 1, 1, true);
    ghost var s0 := p.s;
    ghost var r := p.Supplies(false);
    p.SuppliesAreSound(false);
    SecondIsRefused(r);
    NothingAhead(s0, 2);
    BlocksUnique(|xs|, 1, size);
    ghost var ahead, added, grew;
    ok, ahead, added, grew := p.EnqueueBulk(xs, false);
    BlockIsLeft(s0, p.s, grew);
  }
}
