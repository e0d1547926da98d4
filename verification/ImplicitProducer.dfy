/**
 An implicit producer: the sub-queue of one enqueuing thread.

 The fields are the program's; the ghost fields are the history that module ImplicitState
 explains them with, and State() is all of them together. Each of the small methods is one
 atomic access and is proved to be the step of ImplicitUpdates with that name. The
 operations are built from them, and between any two of them Interfere lets the consumers
 take any number of steps.
 */
module ImplicitProducer {
  import opened BlockNumbers
  import opened BlockIndex
  import opened ImplicitState
  import opened ImplicitUpdates
  import opened ImplicitStages
  import opened ImplicitSteps
  import opened ImplicitSupply
  import opened Circular
  import B = BlockSupply
  import C = ImplicitConsumer

  class Producer<T> {
    const blockBits: nat
    const size: nat                       // BLOCK_SIZE
    const width: nat                      // bits of index_t
    const limit: Option<nat>              // MAX_SUBQUEUE_SIZE
    const undisturbed: bool               // no other thread does anything while an enqueue runs

    var tailIndex: nat
    var headIndex: nat
    var tailBlock: Option<Block>
    var nextCapacity: nat                 // nextBlockIndexCapacity
    var key: seq<Option<nat>>             // the index's entries: INVALID_BLOCK_BASE is None
    var value: seq<Option<Block>>
    var tables: seq<seq<nat>>             // the chain of headers, newest last
    var tails: seq<nat>
    var cells: map<(Block, nat), T>       // the elements in the blocks
    var counter: map<Block, nat>          // elementsCompletelyDequeued
    var next: map<Block, Option<Block>>
    var flights: seq<Flight>              // the consumers
    var free: set<Block>                  // the pool of free blocks
    var others: set<Block>                // the blocks of other sub-queues
    var created: nat                      // how many blocks there are
    var memory: nat                       // how many allocations are granted before one is refused

    ghost var s: State<T>                 // all of it, with its history

    /** The fields are what the history says they are. */
    ghost predicate Mirrors()
      reads this
    {
      && s.size == size && s.index.key == key && s.index.value == value && s.index.tables == tables && s.index.tails == tails
      && s.cells == cells && s.counter == counter && s.next == next && s.tailBlock == tailBlock
      && s.head == headIndex && |s.items| == tailIndex && s.flights == flights
      && nextCapacity == Pow2(s.index.initial + |tables|)
    }

    ghost predicate Parameters() {
      blockBits >= 1 && blockBits + 1 < width && size == Pow2(blockBits)
    }

    /** The invariant at every atomic step. */
    ghost predicate Valid()
      reads this
    {
      && Parameters() && Mirrors() && Inv(s) && Fits(s.head, Base(s.index.count, s.size), limit, width)
      && PoolOk()
    }

    ghost predicate PoolOk()
      reads this
    {
      Conserved(s.home.Keys, free, others, created)
    }

    /** What an enqueue finds that needs new blocks. */
    ghost function Supplies(canAlloc: bool): B.Supply
      reads this`headIndex, this`key, this`value, this`tables, this`tails, this`free, this`memory
    {
      var c := if tables == [] then 1 else |tables[|tables| - 1]|;
      B.Supply(size, limit, width, canAlloc, headIndex, if tables == [] then 0 else c - Open(tables, tails, key, value), c, tables != [],
               false,
               |free|, memory)
    }

    /** What only an allocation changes; there is no telling of the blocks that others create. */
    ghost function Heap(): (int, int, int)
      reads this`tables, this`memory, this`created
    {
      (|tables|, memory, if undisturbed then created else 0)
    }

    lemma SuppliesFacts(canAlloc: bool)
      requires Valid()
      ensures var c := Capacity(s.index);
              Supplies(canAlloc)
              == B.Supply(size, limit, width, canAlloc, headIndex, if tables == [] then 0 else c - OpenOf(s.index),
                          if tables == [] then 1 else c, tables != [], false, |free|, memory)
      ensures tables == s.index.tables && OpenOf(s.index) <= Capacity(s.index)
    {
      hide Valid, Inv, FreeFrom;
      ShapeOfValid();
      if tables != [] {
        OpenMeansRoom(s.index);
      }
    }

    lemma SuppliesAreSound(canAlloc: bool)
      requires Valid()
      ensures B.Sound(Supplies(canAlloc))
    {
      hide Valid, Inv, Supplies, OpenOf, Capacity;
      InvOfValid();
      ShapeOfValid();
      SuppliesFacts(canAlloc);
      CapacityOfShape(s.index);
    }

    lemma InvOfValid()
      requires Valid()
      ensures Inv(s) && s.size == size && size > 0 && width >= 1
      ensures tailIndex == |s.items| && headIndex == s.head && tailBlock == s.tailBlock && tables == s.index.tables
      ensures next == s.next && cells == s.cells
    {
    }

    lemma MirrorsOfValid()
      requires Valid()
      ensures Mirrors()
    {
    }

    lemma ShapeOfValid()
      requires Valid()
      ensures Shape(s.index) && s.index.key == key && s.index.value == value && s.index.tables == tables && s.index.tails == tails
    {
    }

    // ---------- consumers ----------

    method Claim(t: nat, n: nat)
      requires Mirrors() && C.CanClaim(s, t, n)
      modifies this`headIndex, this`flights, this`s
      ensures Mirrors() && s == C.Claim(old(s), t, n)
    {
      flights := flights[t := Claimed(headIndex, headIndex + n)];
      headIndex := headIndex + n;
      s := C.Claim(s, t, n);
    }

    method LoadHeader(t: nat)
      requires Mirrors() && C.CanLoadHeader(s, t)
      modifies this`flights, this`s
      ensures Mirrors() && s == C.LoadHeader(old(s), t)
    {
      flights := flights[t := HasHeader(|tables| - 1, flights[t].index, flights[t].stop)];
      s := C.LoadHeader(s, t);
    }

    method LoadTail(t: nat)
      requires Mirrors() && C.CanLoadTail(s, t)
      modifies this`flights, this`s
      ensures Mirrors() && s == C.LoadTail(old(s), t)
    {
      var f := flights[t];
      flights := flights[t := HasTail(f.j, tails[f.j], f.index, f.stop)];
      s := C.LoadTail(s, t);
    }

    method LoadBase(t: nat)
      requires Mirrors() && C.CanLoadBase(s, t)
      modifies this`flights, this`s
      ensures Mirrors() && s == C.LoadBase(old(s), t)
    {
      var f := flights[t];
      var tailBase := key[tables[f.j][f.tail]].value;
      var slot := (f.tail + (Number(f.index, size) - tailBase)) % |tables[f.j]|;
      flights := flights[t := Reading(f.j, slot, f.index, f.stop)];
      s := C.LoadBase(s, t);
    }

    /** The elements of a section have been moved out: the counter says so. */
    method Finish(t: nat)
      requires Mirrors() && C.CanFinish(s, t)
      modifies this`counter, this`flights, this`s
      ensures Mirrors() && s == C.Finish(old(s), t)
    {
      var f := flights[t];
      var b := value[tables[f.j][f.slot]].value;
      var end := SectionEnd(f.index, f.stop, size);
      SectionBounds(f.index, f.stop, size);
      var n := counter[b] + (end - f.index);
      counter := counter[b := n];
      flights := flights[t := if n == size then Clearing(f.j, f.slot, Number(f.index, size), b, end, f.stop)
                              else C.Advance(f.j, f.slot, |tables[f.j]|, end, f.stop)];
      s := C.Finish(s, t);
    }

    method Null(t: nat)
      requires Mirrors() && C.CanNull(s, t)
      modifies this`value, this`flights, this`s
      ensures Mirrors() && s == C.Null(old(s), t)
    {
      var f := flights[t];
      value := value[tables[f.j][f.slot] := None];
      flights := flights[t := Freeing(f.j, f.slot, f.k, f.b, f.index, f.stop)];
      s := C.Null(s, t);
    }

    /** The block goes back to the pool. */
    method Free(t: nat)
      requires Mirrors() && C.CanFree(s, t)
      modifies this`flights, this`free, this`s
      ensures Mirrors() && s == C.Free(old(s), t) && free == old(free) + {old(flights)[t].b}
    {
      var f := flights[t];
      free := free + {f.b};
      flights := flights[t := C.Advance(f.j, f.slot, |tables[f.j]|, f.index, f.stop)];
      s := C.Free(s, t);
    }

    /** One atomic step of consumer t; an idle one claims n elements. */
    method Dispatch(t: nat, n: nat, ghost s': State<T>)
      requires Mirrors() && C.CanStep(s, t, n) && s' == C.StepOf(s, t, n)
      modifies this`value, this`counter, this`headIndex, this`flights, this`free, this`s
      ensures Mirrors() && s == s' && free == old(free) + Freed(old(flights)[t])
    {
      match flights[t] {
        case Idle => Claim(t, n);
        case Claimed(_, _) => LoadHeader(t);
        case HasHeader(_, _, _) => LoadTail(t);
        case HasTail(_, _, _, _) => LoadBase(t);
        case Reading(_, _, _, _) => Finish(t);
        case Clearing(_, _, _, _, _, _) => Null(t);
        case Freeing(_, _, _, _, _, _) => Free(t);
      }
    }

    /** One step of consumer t; an idle one claims n elements if they are there. */
    method ConsumerStep(t: nat, n: nat)
      requires Valid() && t < |flights|
      modifies this`value, this`counter, this`headIndex, this`flights, this`free, this`s
      ensures Valid() && C.ByConsumers(old(s), s)
    {
      hide Inv, Made;
      if !flights[t].Idle? || (0 < n && headIndex + n <= tailIndex) {
        ghost var s' := StepFacts(s, t, n, free, others, created);
        Dispatch(t, n, s');
      }
    }

    /** Another sub-queue takes a block from the pool, gives one back, or creates one. */
    method OthersStep(b: Block)
      requires PoolOk()
      modifies this`free, this`others, this`created
      ensures PoolOk()
    {
      if b in free {
        free, others := free - {b}, others + {b};
      } else if b in others {
        free, others := free + {b}, others - {b};
      } else {
        others, created := others + {created}, created + 1;
      }
    }

    /** Any number of steps of any consumers and of other sub-queues, unless the producer is undisturbed. */
    method Interfere()
      requires Valid()
      modifies this`value, this`counter, this`headIndex, this`flights, this`free, this`others, this`created, this`s
      ensures Valid() && C.ByConsumers(old(s), s)
      ensures undisturbed ==> s == old(s) && headIndex == old(headIndex) && free == old(free) && created == old(created)
      ensures Heap() == old(Heap())
    {
      hide Inv, Fits, Made;
      ghost var start := s;
      C.KeptAtOnce(s);
      var rounds: nat := *;
      if undisturbed {
        rounds := 0;
      }
      while rounds > 0
        invariant Valid() && C.ByConsumers(start, s)
        invariant undisturbed ==> rounds == 0 && s == start && headIndex == old(headIndex)
        invariant undisturbed ==> free == old(free) && created == old(created)
        invariant Heap() == old(Heap())
      {
        var t: nat := *;
        var n: nat := *;
        ghost var before := s;
        if t < |flights| {
          ConsumerStep(t, n);
        } else {
          OthersStep(n);
        }
        C.ByConsumersChains(start, before, s);
        rounds := rounds - 1;
      }
    }

    // ---------- the producer's atomic steps ----------

    /** insert_block_index_entry's two stores: the base goes into the entry, and the tail to its slot. */
    method StoreBase(k: nat)
      requires Valid() && tables != [] && HasRoom(s.index) && Steady(s) && k == s.index.count
      requires Fits(s.head, Base(k + 1, s.size), limit, width)
      modifies this`key, this`tails, this`s
      ensures Valid() && s == Insert(old(s))
      ensures Made(old(s), s, InsertBase)
    {
      hide Inv, Fits, Pow2, Base, Conserved;
      ShapeOfValid();
      InsertKeepsInv(s);
      var n := |tables| - 1;
      var newTail := (tails[n] + 1) % |tables[n]|;
      key := key[tables[n][newTail] := Some(k)];
      tails := tails[n := newTail];
      s := Insert(s);
    }

    /** entry->value.store(newBlock) */
    method StoreBlock(e: nat, k: nat, b: Block)
      requires Valid() && ClaimedEntry(s, k, e) && b in s.home && s.home[b] == None && k !in s.added && |s.blocks| <= k
      modifies this`value, this`s
      ensures Valid() && s == Put(old(s), e, k, b)
      ensures Made(old(s), s, PutBlock(e, k, b))
    {
      hide Inv, Fits, Pow2, Base, Conserved;
      ShapeOfInv(s);
      SizeOfInv(s);
      PutKeepsInv(s, e, k, b);
      assert Put(s, e, k, b).home.Keys == s.home.Keys;
      value := value[e := Some(b)];
      s := Put(s, e, k, b);
    }

    /** entry->value.store(nullptr) */
    method NullAt(e: nat, ghost s': State<T>)
      requires Mirrors() && e < |key| == |value| && key[e].Some?
      requires s' == s.(index := StoreNull(s.index, e), added := s'.added, home := s'.home)
      modifies this`value, this`s
      ensures Mirrors() && s == s'
    {
      value := value[e := None];
      s := s';
    }

    /** entry->value.store(nullptr), for an entry that got no block */
    method ClearClaim(e: nat)
      requires Valid() && e < |key| && key[e].Some? && key[e] == s.index.pending && key[e].value !in s.added
      modifies this`value, this`s
      ensures Valid() && s == Disclaim(old(s), e)
      ensures Made(old(s), s, DisclaimEntry(e))
    {
      assert |key| == |value|;
      hide Inv, Fits;
      DisclaimKeepsInv(s, e);
      NullAt(e, Disclaim(s, e));
    }

    /** entry->value.store(nullptr), for a block that is taken back */
    method ClearBlock(e: nat)
      requires Valid() && e < |key| && key[e].Some? && key[e].value in s.added
      modifies this`value, this`s
      ensures Valid() && s == TakeBack(old(s), e)
      ensures Made(old(s), s, TakeBackBlock(e))
      ensures Heap() == old(Heap())
    {
      hide Inv, Fits, Made, Conserved, Pow2, Base, Shape;
      ShapeOfInv(s);
      SizeOfInv(s);
      TakeBackIsMade(s, e);
      ghost var s' := TakeBack(s, e);
      TakeBackKeepsInv(s, e);
      NullAt(e, s');
    }

    /** rewind_block_index_tail */
    method RewindTail()
      requires Valid() && tables != [] && |s.blocks| < s.index.count
      requires s.index.high < s.index.count + |tables[Newest(s.index)]|
      modifies this`tails, this`s
      ensures Valid() && s == Unwind(old(s))
      ensures Made(old(s), s, UnwindTail)
      ensures Heap() == old(Heap())
    {
      assert Shape(s.index);
      hide Inv;
      UnwindKeepsInv(s);
      BaseStep(s.index.count - 1, size);
      var n := |tables| - 1;
      tails := tails[n := (tails[n] - 1) % |tables[n]|];
      s := Unwind(s);
    }

    /** reset_empty, for a block that has just been taken from the pool or created */
    method ResetEmpty(b: Block)
      requires Parameters() && Mirrors() && Inv(s) && Fits(s.head, Base(s.index.count, s.size), limit, width)
      requires Conserved(s.home.Keys + {b}, free, others, created) && b !in s.home
      modifies this`cells, this`counter, this`s
      ensures Valid() && s == Acquire(old(s), b)
      ensures Made(old(s), s, AcquireBlock(b))
    {
      hide Inv, Fits, Pow2, Base, Conserved, Made, Shape;
      ghost var s' := Acquire(s, b);
      ShapeOfInv(s);
      SizeOfInv(s);
      AcquireIsMade(s, b);
      AcquireKeepsInv(s, b);
      assert s'.home.Keys == s.home.Keys + {b};
      counter := counter[b := 0];
      cells := map c | c in cells && c.0 != b :: cells[c];
      s := s';
    }

    /** A request for memory; what is granted after a refusal is anything. */
    method Allocate() returns (ok: bool)
      modifies this`memory
      ensures undisturbed ==> (ok <==> old(memory) > 0) && (ok ==> memory == old(memory) - 1)
    {
      if !undisturbed {
        memory := *;
      }
      ok := memory > 0;
      if ok {
        memory := memory - 1;
      } else {
        memory := *;
      }
    }

    /** requisition_block: a free block, a new one, or none. */
    method PickBlock(canAlloc: bool, ghost home: set<Block>) returns (b: Option<Block>)
      requires Conserved(home, free, others, created)
      modifies this`free, this`created, this`memory
      ensures if b.Some? then b.value !in home && Conserved(home + {b.value}, free, others, created)
              else free == old(free) && created == old(created)
      ensures undisturbed && old(free) != {} ==> b.Some? && |free| == |old(free)| - 1 && memory == old(memory)
      ensures undisturbed && old(free) == {} ==> (b.Some? <==> canAlloc && old(memory) > 0)
      ensures undisturbed && old(free) == {} && b.Some? ==> free == {} && memory == old(memory) - 1
      ensures !canAlloc ==> Heap() == old(Heap())
    {
      var contended: bool := *;
      if free != {} && (undisturbed || !contended) {
        var c :| c in free;
        free := free - {c};
        return Some(c);
      }
      b := None;
      if canAlloc {
        var ok := Allocate();
        if ok {
          b := Some(created);
          created := created + 1;
        }
      }
    }

    /** requisition_block and reset_empty. */
    method Requisition(canAlloc: bool) returns (b: Option<Block>)
      requires Valid()
      modifies this`free, this`created, this`cells, this`counter, this`memory, this`s
      ensures Valid()
      ensures b.None? ==> s == old(s)
      ensures b.Some? ==> b.value !in old(s).home && s == Acquire(old(s), b.value)
      ensures undisturbed && old(free) != {} ==> b.Some? && |free| == |old(free)| - 1 && memory == old(memory)
      ensures undisturbed && old(free) == {} ==> (b.Some? <==> canAlloc && old(memory) > 0)
      ensures undisturbed && old(free) == {} && b.Some? ==> free == {} && memory == old(memory) - 1
      ensures !canAlloc ==> Heap() == old(Heap())
    {
      hide Inv, Fits, Made, Conserved;
      b := PickBlock(canAlloc, s.home.Keys);
      if b.Some? {
        ResetEmpty(b.value);
      }
    }

    /** add_block_to_free_list, for a block that is not in the index */
    method GiveBack(b: Block)
      requires Valid() && b in s.home && s.home[b] == None
      modifies this`free, this`s
      ensures Valid() && s == Release(old(s), b)
      ensures Made(old(s), s, ReleaseBlock(b))
    {
      hide Inv, Fits;
      ShapeOfInv(s);
      SizeOfInv(s);
      ReleaseKeepsInv(s, b);
      GivenBack(s.home.Keys, free, others, created, b);
      assert (s.home - {b}).Keys == s.home.Keys - {b};
      free := free + {b};
      s := Release(s, b);
    }

    /** Construct element i in the block b of its number. The block is this sub-queue's. */
    method ConstructAt(b: Block, i: nat, x: T)
      requires Valid() && |s.items| <= i && HasBlock(s, Number(i, s.size)) && b == BlockFor(s, Number(i, s.size))
      modifies this`cells, this`s
      ensures Valid() && s == Construct(old(s), b, Offset(i, s.size), x)
      ensures Made(old(s), s, ConstructCell(i, x))
    {
      hide Inv, Fits;
      ghost var s' := Construct(s, b, Offset(i, size), x);
      ShapeOfInv(s);
      ConstructKeepsInv(s, i, x);
      cells := cells[(b, Offset(i, size)) := x];
      s := s';
    }

    /** tailIndex.store */
    method StoreTailIndex(newTail: nat, ghost xs: seq<T>)
      requires Valid() && newTail == tailIndex + |xs| <= Base(s.index.count, s.size)
      requires AddedInOrder(s) && s.index.pending == None && Constructed(s, xs, |xs|)
      requires forall k :: k in s.added ==> s.added[k] in s.counter && s.counter[s.added[k]] == 0
      modifies this`tailIndex, this`s
      ensures Valid() && s == Publish(old(s), xs)
      ensures Made(old(s), s, PublishItems(xs))
    {
      hide Inv, Fits;
      ShapeOfInv(s);
      SizeOfInv(s);
      PublishKeepsInv(s, xs);
      tailIndex := newTail;
      s := Publish(s, xs);
    }

    method SetTailBlock(b: Option<Block>)
      requires Valid()
      modifies this`tailBlock, this`s
      ensures Valid() && s == old(s).(tailBlock := b)
      ensures Made(old(s), s, SetTail(b))
    {
      hide Inv, Fits, Made, Conserved, Pow2, Base;
      ShapeOfInv(s);
      SizeOfInv(s);
      LinksAreMade(s);
      LinksDoNotMatter(s, b, s.next);
      tailBlock := b;
      s := s.(tailBlock := b);
    }

    /** block->next = n. The block is this sub-queue's. */
    method SetNext(b: Block, n: Option<Block>)
      requires Valid() && b in s.home
      modifies this`next, this`s
      ensures Valid() && s == old(s).(next := old(s).next[b := n])
      ensures Made(old(s), s, SetLink(b, n))
    {
      hide Inv, Fits, Made, Conserved, Pow2, Base;
      ShapeOfInv(s);
      SizeOfInv(s);
      LinksAreMade(s);
      LinksDoNotMatter(s, s.tailBlock, s.next[b := n]);
      next := next[b := n];
      s := s.(next := s.next[b := n]);
    }

    // ---------- the block index ----------

    /** The new header's entry pointers, in the order new_block_index stores them. */
    method NewTable(entryCount: nat) returns (index: seq<nat>)
      requires Mirrors() && Shape(s.index) && entryCount == FreshEntries(s.index)
      ensures index == GrownTable(s.index)
    {
      var n, entries := |tables|, |key|;
      index := [];
      if n > 0 {
        index := CopyRotated(tables[n - 1], tails[n - 1]);
      }
      index := index + seq(entryCount, i => entries + i);
    }

    /** The entries are initialized and the header is published. */
    method InstallHeader(index: seq<nat>, garbage: seq<Option<Block>>)
      requires Mirrors() && Shape(s.index) && |garbage| == FreshEntries(s.index) && index == GrownTable(s.index)
      modifies this`key, this`value, this`tables, this`tails, this`nextCapacity, this`s
      ensures Mirrors() && s == Enlarge(old(s), garbage)
    {
      hide Pow2, GrownTable, Grow, FreshEntries, Shape, Enlarge;
      var n := |tables|;
      var prevCapacity := if n == 0 then 0 else |tables[n - 1]|;
      DoubledCapacity(s.index);
      NewTail(prevCapacity, nextCapacity);
      EnlargeFields(s, garbage);
      s := Enlarge(s, garbage);
      key := key + seq(|garbage|, _ => None);
      value := value + garbage;
      tables := tables + [index];
      tails := tails + [(prevCapacity - 1) % nextCapacity];
      nextCapacity := 2 * nextCapacity;
    }

    /** new_block_index: a header twice as large, or none if memory is refused. `junk` is what that memory holds. */
    method NewBlockIndex() returns (ok: bool, ghost junk: seq<Option<Block>>)
      requires Valid() && Steady(s) && (tables != [] ==> s.index.count == s.index.high)
      modifies this`key, this`value, this`tables, this`tails, this`nextCapacity, this`memory, this`s
      ensures Valid() && (!ok ==> s == old(s))
      ensures ok ==> |junk| == FreshEntries(old(s).index) && s == Enlarge(old(s), junk)
      ensures ok ==> Made(old(s), s, EnlargeIndex(junk))
      ensures undisturbed ==> (ok <==> old(memory) > 0) && (ok ==> memory == old(memory) - 1)
    {
      hide Inv, Fits, Shape, Steady, GrownTable, Made;
      var content: seq<Option<Block>> := *;
      ok := Allocate();
      if !ok {
        return false, [];
      }
      ShapeOfInv(s);
      SizeOfInv(s);
      var entryCount := if tables == [] then nextCapacity else |tables[|tables| - 1]|;
      var garbage := seq(entryCount, (i: nat) => if i < |content| then content[i] else None);
      EnlargeKeepsInv(s, garbage);
      EnlargeIsMade(s, garbage);
      var index := NewTable(entryCount);
      InstallHeader(index, garbage);
      junk := garbage;
    }

    /** The next entry is free: claim it. */
    method ClaimNext(k: nat) returns (e: nat)
      requires Valid() && tables != [] && HasRoom(s.index) && Steady(s) && k == s.index.count
      requires Fits(s.head, Base(k + 1, s.size), limit, width)
      modifies this`key, this`tails, this`s
      ensures Valid() && ClaimedEntry(s, k, e) && C.Kept(old(s), s)
      ensures s.index.high == Max(old(s).index.high, k + 1) && Capacity(s.index) == Capacity(old(s).index)
      ensures ClaimLeaves(s.index, e, k, Capacity(old(s).index), OpenOf(old(s).index) - 1)
    {
      AfterInsert(s);
      ClaimLeavesOneLess(s.index);
      assert Shape(s.index);
      hide Inv, Fits, Made, ClaimLeaves, OpenOf;
      var n := |tables| - 1;
      e := tables[n][(tails[n] + 1) % |tables[n]|];
      StoreBase(k);
    }

    /** The index is full: grow it and claim the first new entry. */
    method GrowAndClaim(k: nat) returns (ok: bool, e: nat)
      requires Valid() && Steady(s) && k == s.index.count == s.index.high && |s.blocks| <= k && tables != []
      requires Fits(s.head, Base(k + 1, s.size), limit, width)
      modifies this`key, this`value, this`tables, this`tails, this`nextCapacity, this`memory, this`counter, this`headIndex
      modifies this`flights, this`free, this`others, this`created, this`s
      ensures Valid() && C.Kept(old(s), s) && Capacity(old(s).index) <= Capacity(s.index)
      ensures if ok then ClaimedEntry(s, k, e) && s.index.high == Max(old(s).index.high, k + 1) else s == old(s)
      ensures undisturbed ==>
                && (ok <==> old(memory) > 0) && free == old(free) && created == old(created)
                && (ok && old(Shape(s.index) && !HasRoom(s.index)) ==>
                      && memory == old(memory) - 1 && |tables| == old(|tables|) + 1
                      && ClaimLeaves(s.index, e, k, 2 * Capacity(old(s).index), Capacity(old(s).index) - 1))
      ensures undisturbed ==> headIndex == old(headIndex)
    {
      hide Valid, Inv, Fits, C.HomeKept, Made, ClaimLeaves, OpenOf, Enlarge, Steady, HasRoom, Heap;
      InvOfValid();
      ShapeOfValid();
      C.KeptAtOnce(s);
      ghost var s0 := s;
      ghost var junk;
      ok, junk := NewBlockIndex();
      if !ok {
        return false, 0;
      }
      InvOfValid();
      AfterGrow(s0, junk);
      OpenAfterEnlarge(s0, junk);
      ghost var s1 := s;
      Interfere();
      InvOfValid();
      RoomStays(s1, s);
      FitsLater(s0.head, s.head, Base(k + 1, s.size), limit, width);
      ghost var s2 := s;
      e := ClaimNext(k);
      C.KeptChains(s0, s1, s2);
      C.KeptChains(s0, s2, s);
    }

    /** The entry after the tail is unused: claim it, later. */
    method WaitAndClaim(k: nat) returns (e: nat)
      requires Valid() && Steady(s) && k == s.index.count && tables != [] && HasRoom(s.index)
      requires Fits(s.head, Base(k + 1, s.size), limit, width)
      modifies this`key, this`tails, this`value, this`counter, this`headIndex, this`flights, this`free, this`others
      modifies this`created, this`s
      ensures Valid() && C.Kept(old(s), s) && Capacity(old(s).index) <= Capacity(s.index)
      ensures ClaimedEntry(s, k, e) && s.index.high == Max(old(s).index.high, k + 1)
      ensures undisturbed ==> ClaimLeaves(s.index, e, k, Capacity(old(s).index), OpenOf(old(s).index) - 1) && free == old(free)
      ensures undisturbed ==> created == old(created)
      ensures undisturbed ==> headIndex == old(headIndex)
    {
      hide Inv, Fits, C.HomeKept, Made;
      ghost var s0 := s;
      Interfere();
      RoomStays(s0, s);
      FitsLater(s0.head, s.head, Base(k + 1, s.size), limit, width);
      ghost var s1 := s;
      e := ClaimNext(k);
      C.KeptChains(s0, s1, s);
    }

    method WaitAndGrow(k: nat) returns (ok: bool, e: nat)
      requires Valid() && Steady(s) && k == s.index.count == s.index.high && |s.blocks| <= k && tables != []
      requires Fits(s.head, Base(k + 1, s.size), limit, width)
      modifies this`key, this`value, this`tables, this`tails, this`nextCapacity, this`memory, this`counter, this`headIndex
      modifies this`flights, this`free, this`others, this`created, this`s
      ensures Valid() && C.Kept(old(s), s) && Capacity(old(s).index) <= Capacity(s.index)
      ensures if ok then ClaimedEntry(s, k, e) && s.index.high == Max(old(s).index.high, k + 1)
              else s.index.count == k && s.index.pending == None && s.index.high == old(s).index.high
      ensures undisturbed ==>
                && (ok <==> old(memory) > 0) && free == old(free) && created == old(created)
                && (ok && old(Shape(s.index) && !HasRoom(s.index)) ==>
                      && memory == old(memory) - 1 && |tables| == old(|tables|) + 1
                      && ClaimLeaves(s.index, e, k, 2 * Capacity(old(s).index), Capacity(old(s).index) - 1))
      ensures undisturbed ==> headIndex == old(headIndex)
    {
      hide Inv, Fits, C.HomeKept, Made;
      ghost var s0 := s;
      Interfere();
      SteadyStays(s0, s);
      FitsLater(s0.head, s.head, Base(k + 1, s.size), limit, width);
      ghost var s1 := s;
      ok, e := GrowAndClaim(k);
      C.KeptChains(s0, s1, s);
    }

    /** insert_block_index_entry: an entry for block number k, or false when the index cannot grow. */
    method InsertEntry(k: nat, canAlloc: bool) returns (ok: bool, e: nat)
      requires Valid() && Steady(s) && k == s.index.count && |s.blocks| <= k
      requires Fits(s.head, Base(k + 1, s.size), limit, width)
      modifies this`key, this`value, this`tables, this`tails, this`nextCapacity, this`memory, this`counter, this`headIndex
      modifies this`flights, this`free, this`others, this`created, this`s
      ensures Valid() && C.Kept(old(s), s) && Capacity(old(s).index) <= Capacity(s.index)
      ensures if ok then ClaimedEntry(s, k, e) && s.index.high == Max(old(s).index.high, k + 1)
              else s.index.count == k && s.index.pending == None && s.index.high == old(s).index.high
      ensures undisturbed ==>
                var open, c := OpenOf(old(s).index), Capacity(old(s).index);
                && free == old(free)
                && (ok <==> old(tables) != [] && (open > 0 || (canAlloc && old(memory) > 0)))
                && (ok ==> if open > 0 then memory == old(memory) && ClaimLeaves(s.index, e, k, c, open - 1)
                           else memory == old(memory) - 1 && ClaimLeaves(s.index, e, k, 2 * c, c - 1))
      ensures !canAlloc ==> Heap() == old(Heap())
      ensures undisturbed ==> headIndex == old(headIndex)
    {
      hide Valid, Inv, Fits, C.HomeKept, Made, ClaimLeaves, OpenOf;
      InvOfValid();
      ShapeOfValid();
      C.KeptAtOnce(s);
      if tables == [] {
        return false, 0;
      }
      OpenMeansRoom(s.index);
      var n := |tables| - 1;
      e := tables[n][(tails[n] + 1) % |tables[n]|];
      if key[e].None? || value[e].None? {
        e := WaitAndClaim(k);
        ok := true;
      } else if canAlloc {
        FullIsHigh(s);
        ok, e := WaitAndGrow(k);
      } else {
        ok := false;
      }
    }

    // ---------- a new block ----------

    /** The program's test with the head index it has just loaded. */
    lemma RoomCheck(t: State<T>, k: nat)
      requires Parameters() && Inv(t) && t.size == size && |t.blocks| <= k == t.index.count
      requires Fits(t.head, Base(k, size), limit, width)
      ensures Full(t.head, Base(k, size), size, limit, width) <==> !Fits(t.head, Base(k + 1, size), limit, width)
    {
      BaseOrder(|t.blocks|, k, size);
      BaseStep(k, size);
      Pow2Grows(blockBits, width - 1);
      FullExact(t.head, Base(k, size), size, limit, width);
    }

    /** No block could be had for the claimed entry: rewind the tail, then null the entry. */
    method AbandonClaim(k: nat, e: nat)
      requires Valid() && ClaimedEntry(s, k, e) && InOrder(s, k) && HighOk(s)
      modifies this`tails, this`value, this`counter, this`headIndex, this`flights, this`free, this`others, this`created
      modifies this`s
      ensures Valid() && C.Kept(old(s), s) && HighOk(s) && s.index.count == k && s.index.pending == None
      ensures Heap() == old(Heap())
      ensures undisturbed ==> headIndex == old(headIndex)
    {
      hide Valid, Inv, Fits, C.HomeKept, Made;
      ShapeOfValid();
      ghost var s0 := s;
      RewindTail();
      UnwindKept(s0);
      ghost var s1 := s;
      Interfere();
      C.KeptChains(s0, s1, s);
      ghost var s2 := s;
      hide C.Kept;
      InvOfValid();
      ClearClaim(e);
      DisclaimKept(s2, e);
      C.KeptChains(s0, s2, s);
    }

    /** A block for the claimed entry, or none. */
    method FillClaim(k: nat, e: nat, canAlloc: bool) returns (b: Option<Block>)
      requires Valid() && ClaimedEntry(s, k, e) && InOrder(s, k) && HighOk(s)
      modifies this`cells, this`tails, this`memory, this`value, this`counter, this`headIndex, this`flights, this`free
      modifies this`others, this`created, this`s
      ensures Valid() && HighOk(s) && s.index.pending == None
      ensures if b.Some? then Added(old(s), s, k, b.value) else C.Kept(old(s), s) && s.index.count == k
      ensures undisturbed ==> (b.Some? <==> old(free) != {} || (canAlloc && old(memory) > 0))
      ensures undisturbed && b.Some? ==>
                && e < |old(s).index.value| && s.index == StoreValue(old(s).index, e, k, b.value)
                && (if old(free) != {} then |free| == |old(free)| - 1 && memory == old(memory)
                    else |free| == 0 && memory == old(memory) - 1)
      ensures !canAlloc ==> Heap() == old(Heap())
      ensures undisturbed ==> headIndex == old(headIndex)
    {
      hide Valid, Inv, Fits, C.HomeKept, Made, C.ByConsumers, C.Kept, ClaimedEntry, InOrder, HighOk, Added;
      ghost var s0 := s;
      Interfere();
      InvOfValid();
      ClaimStays(s0, s, k, e);
      ByConsumersKeep(s0, s);
      ghost var s1 := s;
      b := Requisition(canAlloc);
      if b.None? {
        AbandonClaim(k, e);
        C.KeptChains(s0, s1, s);
      } else {
        InstallBlock(k, e, b.value, s1);
        AddedAfterKept(s0, s1, s, k, b.value);
      }
    }

    /** The block that has been taken for the claimed entry goes into it. */
    method InstallBlock(k: nat, e: nat, b: Block, ghost s1: State<T>)
      requires Valid() && s == Acquire(s1, b) && b !in s1.home && ClaimedEntry(s1, k, e) && InOrder(s1, k) && HighOk(s1)
      modifies this`value, this`counter, this`headIndex, this`flights, this`free, this`others, this`created, this`s
      ensures Valid() && HighOk(s) && s.index.pending == None && Added(s1, s, k, b)
      ensures undisturbed ==> e < |old(s).index.value| && s.index == StoreValue(old(s).index, e, k, b) && free == old(free)
      ensures Heap() == old(Heap())
      ensures undisturbed ==> headIndex == old(headIndex)
    {
      hide Valid, Inv, Fits, C.HomeKept, Added, Made;
      ghost var s2 := s;
      Interfere();
      ClaimStays(s2, s, k, e);
      AcquiredStays(s1, b, s);
      ghost var s3 := s;
      StoreBlock(e, k, b);
      AddedChain(s1, s1, b, s3, e, k);
    }

    /** There is room: claim an entry and fill it. */
    method AddWithRoom(k: nat, canAlloc: bool) returns (b: Option<Block>)
      requires Valid() && Steady(s) && k == s.index.count && InOrder(s, k) && HighOk(s)
      requires Fits(s.head, Base(k + 1, s.size), limit, width)
      modifies this`cells, this`key, this`value, this`tables, this`tails, this`nextCapacity, this`memory, this`counter
      modifies this`headIndex, this`flights, this`free, this`others, this`created, this`s
      ensures Valid() && HighOk(s) && s.index.pending == None
      ensures if b.Some? then Added(old(s), s, k, b.value) else C.Kept(old(s), s) && s.index.count == k
      ensures undisturbed ==>
                var r := old(Supplies(canAlloc));
                && (b.Some? <==> B.CanEnter(r) && (r.pool > 0 || (canAlloc && B.Grown(r).memory > 0)))
                && (b.Some? ==> Supplies(canAlloc) == B.Less(r))
      ensures !canAlloc ==> Heap() == old(Heap())
      ensures undisturbed ==> headIndex == old(headIndex)
    {
      hide Inv, Fits, C.HomeKept, C.IndexKept, Added, ClaimedEntry, Made, ClaimLeaves, OpenOf, Supplies, Capacity;
      ghost var s0 := s;
      SuppliesFacts(canAlloc);
      var ok, e := InsertEntry(k, canAlloc);
      if !ok {
        return None;
      }
      HighAfterClaim(s, k, e);
      ghost var s1 := s;
      b := FillClaim(k, e, canAlloc);
      SuppliesFacts(canAlloc);
      if b.Some? {
        if undisturbed {
          FilledNow(s1.index, s.index, e, k, b.value);
        }
        AddedAfterKept(s0, s1, s, k, b.value);
      } else {
        C.KeptChains(s0, s1, s);
      }
    }

    /** Check for room, claim an entry, and fill it: block number k is in the index, or everything is as before. */
    method AddBlock(k: nat, canAlloc: bool) returns (b: Option<Block>)
      requires Valid() && Steady(s) && k == s.index.count && InOrder(s, k) && HighOk(s)
      modifies this`cells, this`key, this`value, this`tables, this`tails, this`nextCapacity, this`memory, this`counter
      modifies this`headIndex, this`flights, this`free, this`others, this`created, this`s
      ensures Valid() && HighOk(s) && s.index.pending == None
      ensures if b.Some? then Added(old(s), s, k, b.value) else C.Kept(old(s), s) && s.index.count == k
      ensures undisturbed ==>
                var r := old(Supplies(canAlloc));
                && B.Sound(r) && (b.Some? <==> B.Obtainable(r, k, 1)) && (b.Some? ==> Supplies(canAlloc) == B.Less(r))
      ensures !canAlloc ==> Heap() == old(Heap())
    {
      hide Inv, Fits, C.HomeKept, Added, ClaimedEntry, Made, Supplies, Full, B.Obtainable, B.Sound, B.Less, B.Grown;
      SuppliesAreSound(canAlloc);
      B.OneExact(Supplies(canAlloc), k);
      SuppliesFacts(canAlloc);
      ghost var s0 := s;
      Interfere();
      SuppliesFacts(canAlloc);
      ghost var s1 := s;
      SteadyStays(s0, s1);
      RoomCheck(s1, k);
      if Full(headIndex, Base(k, size), size, limit, width) {
        return None;
      }
      b := AddWithRoom(k, canAlloc);
      if b.Some? {
        AddedAfterKept(s0, s1, s, k, b.value);
      } else {
        C.KeptChains(s0, s1, s);
      }
    }

    // ---------- enqueue ----------

    /**
     Enqueue one element. A new block is needed only at the start of a block; when there is no room for it, or no
     index entry, or no block, nothing has changed but what the consumers did. If nobody else does anything meanwhile, it
     succeeds exactly if no block is needed or one can be had. Without leave to allocate, nothing is allocated.
     */
    method Enqueue(x: T, canAlloc: bool) returns (ok: bool)
      requires Valid() && Settled(s)
      modifies this
      ensures Valid() && Settled(s)
      ensures s.items == old(s).items + (if ok then [x] else []) && Later(old(s), s)
      ensures !ok ==> C.Kept(old(s), s) && old(tailIndex) % size == 0
      ensures undisturbed ==>
                && B.Sound(old(Supplies(canAlloc)))
                && (ok <==> old(tailIndex) % size != 0 || B.Obtainable(old(Supplies(canAlloc)), |old(s).blocks|, 1))
      ensures !canAlloc ==> Heap() == old(Heap())
    {
      hide Valid, Inv, Fits, Settled, Loaded, TailIs, C.Kept, Base, Number, Blocks, Offset, Made, B.Obtainable, B.Sound,
           B.Less, Supplies, Heap;
      SuppliesAreSound(canAlloc);
      ghost var s0 := s;
      InvOfValid();
      LoadedStart(s0);
      TailOfSettled(s0);
      AlignedAtBase(tailIndex, size);
      BlocksAfterOne(tailIndex, size);
      ok := true;
      if tailIndex % size == 0 {
        ok := NextTailBlock(Number(tailIndex, size), canAlloc);
        InvOfValid();
      }
      if ok {
        WriteAndPublish(s0, x);
      }
    }

    /** Start a new block, number k. */
    method NextTailBlock(k: nat, canAlloc: bool) returns (ok: bool)
      requires Valid() && Settled(s) && k == |s.blocks|
      modifies this`tailBlock, this`cells, this`key, this`value, this`tables, this`tails, this`nextCapacity, this`memory
      modifies this`counter, this`headIndex, this`flights, this`free, this`others, this`created, this`s
      ensures Valid()
      ensures s.items == old(s).items && Later(old(s), s)
      ensures if ok then Loaded(old(s), s, k + 1) && TailIs(s, k + 1) else Settled(s) && C.Kept(old(s), s)
      ensures undisturbed ==> B.Sound(old(Supplies(canAlloc))) && (ok <==> B.Obtainable(old(Supplies(canAlloc)), k, 1))
      ensures !canAlloc ==> Heap() == old(Heap())
    {
      hide Valid, Inv, Fits, C.HomeKept, C.IndexKept, C.Kept, Added, Settled, Loaded, TailIs, Base, Number, Blocks, Offset,
           Pow2, Made, B.Obtainable, B.Sound, B.Less, Supplies, Heap;
      SuppliesAreSound(canAlloc);
      InvOfValid();
      ghost var s0 := s;
      LoadedStart(s0);
      var b := AddBlock(k, canAlloc);
      InvOfValid();
      if b.None? {
        SettledAfterFailure(s0, s);
        return false;
      }
      LoadedAdds(s0, s0, s, k, b.value);
      ghost var s1 := s;
      Interfere();
      InvOfValid();
      LoadedStays(s0, s1, s);
      ghost var s2 := s;
      SetTailBlock(b);
      TailIsSet(s0, s2, k, b.value);
      ok := true;
    }

    /** Construct the element in the tail block, and move the tail. */
    method WriteAndPublish(ghost s0: State<T>, x: T)
      requires Valid() && Loaded(s0, s, Blocks(tailIndex + 1, size)) && TailIs(s, Blocks(tailIndex + 1, size))
      modifies this`tailIndex, this`cells, this`value, this`counter, this`headIndex, this`flights, this`free, this`others
      modifies this`created, this`s
      ensures Valid() && Settled(s) && s.items == old(s).items + [x] && Later(old(s), s)
      ensures Heap() == old(Heap())
    {
      hide Valid, Inv, Fits, C.HomeKept, C.IndexKept, Constructed, Blocks, Base, Number, Offset, Made, Heap;
      InvOfValid();
      ghost var n := Blocks(tailIndex + 1, size);
      ghost var s1 := s;
      BlocksBounds(tailIndex + 1, size);
      Writable(s0, s1, n, tailIndex);
      BlocksAfterOne(tailIndex, size);
      ConstructedNone(s1, [x]);
      ConstructAt(tailBlock.value, tailIndex, x);
      ConstructedOneMore(s1, [x], 0);
      ghost var s2 := s;
      InvOfValid();
      Interfere();
      InvOfValid();
      LoadedStays(s0, s2, s);
      ConstructedStays(s0, s2, s, n, [x], 1);
      ghost var s3 := s;
      StoreTailIndex(tailIndex + 1, [x]);
      PublishSettles(s0, s3, n, [x]);
    }

    // ---------- bulk enqueue: the blocks ----------

    /** newBlock->next = nullptr, the link from the block before it, and the tail block. */
    method LinkBlock(prev: Option<Block>, b: Block)
      requires Valid() && b in s.home && (prev.Some? ==> prev.value in s.home)
      modifies this`next, this`tailBlock, this`s
      ensures Valid() && s == Link(old(s), prev, b)
    {
      hide Inv, Fits, PoolOk, Made;
      SetNext(b, None);
      if prev.Some? {
        SetNext(prev.value, Some(b));
      }
      SetTailBlock(Some(b));
    }

    /** One more block for a bulk enqueue: in the index and at the end of the chain. */
    method AddToChain(n: nat, link: bool, canAlloc: bool, ghost s0: State<T>) returns (b: Option<Block>)
      requires Valid() && BulkLoaded(s0, s, n) && (link <==> ChainStart(s) < n)
      modifies this`next, this`tailBlock, this`cells, this`key, this`value, this`tables, this`tails, this`nextCapacity
      modifies this`memory, this`counter, this`headIndex, this`flights, this`free, this`others, this`created, this`s
      ensures Valid()
      ensures if b.Some? then BulkLoaded(s0, s, n + 1) && s.added == old(s).added[n := b.value] && s.tailBlock == b
              else BulkLoaded(s0, s, n) && s.added == old(s).added && s.tailBlock == old(s).tailBlock
      ensures undisturbed ==>
                var r := old(Supplies(canAlloc));
                && B.Sound(r) && (b.Some? <==> B.Obtainable(r, n, 1)) && (b.Some? ==> Supplies(canAlloc) == B.Less(r))
      ensures !canAlloc ==> Heap() == old(Heap())
    {
      hide Valid, Inv, Fits, BulkLoaded, Steady, InOrder, HighOk, Added, C.Kept, Chained, Made, B.Obtainable, B.Sound,
           B.Less, Supplies, Heap;
      SuppliesAreSound(canAlloc);
      ghost var s1 := s;
      InvOfValid();
      BulkSteady(s0, s, n);
      b := AddBlock(n, canAlloc);
      InvOfValid();
      if b.None? {
        BulkKept(s0, s1, s, n);
        return;
      }
      ghost var s2 := s;
      BeforeLink(s0, s1, s2, n, b.value);
      BulkLink(s0, s1, s2, n, b.value);
      LinkBlock(if link then tailBlock else None, b.value);
    }

    /** One more block is needed, number n: `diff` is how far the bases are from those needed, `current` the base before it. */
    method AddOne(start: nat, first0: Option<Block>, diff0: int, current0: int, canAlloc: bool,
                  ghost last: nat, ghost s0: State<T>, ghost n: nat)
      returns (ok: bool, first: Option<Block>, diff: int, current: int)
      requires Valid() && BulkLoaded(s0, s, n) && |s0.blocks| <= n && diff0 > 0 && start == |s0.items|
      requires diff0 == Base(last, size) - Base(n, size) && current0 + size == Base(n, size)
      requires first0 == if n == |s.blocks| then None else Nth(s, |s.blocks|)
      modifies this`next, this`tailBlock, this`cells, this`key, this`value, this`tables, this`tails, this`nextCapacity
      modifies this`memory
      modifies this`counter, this`headIndex, this`flights, this`free, this`others, this`created, this`s
      ensures Valid() && BulkLoaded(s0, s, if ok then n + 1 else n) && n < last
      ensures diff == Base(last, size) - Base(n + 1, size) && current + size == Base(n + 1, size) && diff < diff0
      ensures first == if (if ok then n + 1 else n) == |s.blocks| then None else Nth(s, |s.blocks|)
      ensures undisturbed ==>
                var r := old(Supplies(canAlloc));
                && B.Sound(r) && (ok <==> B.Obtainable(r, n, 1)) && (ok ==> Supplies(canAlloc) == B.Less(r))
      ensures !canAlloc ==> Heap() == old(Heap())
    {
      hide Valid, Inv, Fits, BulkLoaded, Base, Number, Blocks, Made, B.Obtainable, B.Sound, B.Less, Supplies, Heap;
      InvOfValid();
      BulkFacts(s0, s, n);
      BlocksOfNumber(start, Number(start, size), size);
      OffsetIsRemainder(start, size);
      BaseApart(n, last, size);
      NumberOfBase(n, size);
      BaseStep(n, size);
      diff, current := diff0 - size, current0 + size;
      var link := start % size != 0 || first0.Some?;
      var b := AddToChain(Number(current, size), link, canAlloc, s0);
      ok, first := b.Some?, first0;
      InvOfValid();
      BulkFacts(s0, s, if ok then n + 1 else n);
      first := if first.None? then b else first;
    }

    /** The blocks that elements [start, start + count) need beyond the tail block, or as many as could be had. */
    method AddBlocks(start: nat, count: nat, canAlloc: bool) returns (ok: bool, first: Option<Block>)
      requires Valid() && Settled(s) && start == tailIndex
      modifies this`next, this`tailBlock, this`cells, this`key, this`value, this`tables, this`tails, this`nextCapacity
      modifies this`memory
      modifies this`counter, this`headIndex, this`flights, this`free, this`others, this`created, this`s
      ensures Valid() && BulkLoaded(old(s), s, s.index.count)
      ensures first == if s.index.count == |s.blocks| then None else Nth(s, |s.blocks|)
      ensures if ok then s.index.count == Blocks(start + count, size) else s.index.count < Blocks(start + count, size)
      ensures old(|s.blocks|) <= Blocks(start + count, size)
      ensures undisturbed ==>
                && B.Sound(old(Supplies(canAlloc)))
                && (ok <==> B.Obtainable(old(Supplies(canAlloc)), old(|s.blocks|), Blocks(start + count, size) - old(|s.blocks|)))
      ensures !canAlloc ==> Heap() == old(Heap())
    {
      hide Valid, Inv, Fits, BulkLoaded, Settled, Base, Number, Blocks, MaskDown, Made, Nth,
           B.Obtainable, B.Sound, B.Less, B.Leaves, Supplies, Heap;
      SuppliesAreSound(canAlloc);
      ghost var r := Supplies(canAlloc);
      ghost var s0 := s;
      B.LeavesAll(r, |s.blocks|);
      InvOfValid();
      BulkStart(s0);
      MaskDownBefore(start, size);
      MaskDownBefore(start + count, size);
      BlocksMonotone(start, start + count, size);
      ghost var last := Blocks(start + count, size);
      var diff := MaskDown(start + count - 1, size) - MaskDown(start - 1, size);
      var current := MaskDown(start - 1, size);
      first, ok := None, true;
      ghost var n: nat := |s0.blocks|;
      BulkFacts(s0, s, n);
      while diff > 0
        invariant Valid() && s.size == size && BulkLoaded(s0, s, n) && |s0.blocks| <= n <= last
        invariant diff == Base(last, size) - Base(n, size) && current + size == Base(n, size)
        invariant first == if n == |s.blocks| then None else Nth(s, |s.blocks|)
        invariant !canAlloc ==> Heap() == old(Heap())
        invariant undisturbed ==> B.Leaves(r, |s0.blocks|, n - |s0.blocks|, Supplies(canAlloc))
      {
        ghost var r' := Supplies(canAlloc);
        ok, first, diff, current := AddOne(start, first, diff, current, canAlloc, last, s0, n);
        InvOfValid();
        if !ok {
          BulkFacts(s0, s, n);
          if undisturbed {
            B.LeavesNoMore(r, |s0.blocks|, n - |s0.blocks|, r', last - |s0.blocks|);
          }
          return;
        }
        if undisturbed {
          B.LeavesOne(r, |s0.blocks|, n - |s0.blocks|, r');
        }
        n := n + 1;
      }
      BaseApart(n, last, size);
      BulkFacts(s0, s, n);
      if undisturbed {
        B.LeavesFacts(r, |s0.blocks|, n - |s0.blocks|, Supplies(canAlloc));
      }
    }

    // ---------- bulk enqueue: the elements ----------

    /** The elements that go to one block, from `from` up to `stop`. */
    method WriteBlock(xs: seq<T>, start: nat, from: nat, stop: nat, ghost s0: State<T>, ghost n: nat, ghost q: nat)
      requires Valid() && start == |s.items| && start <= from <= stop <= start + |xs|
      requires Writing(s0, s, xs, n, from - start) && ChainStart(s) <= q < n && s.tailBlock == Nth(s, q)
      requires Base(q, size) <= from && stop <= Base(q, size) + size
      modifies this`cells, this`value, this`counter, this`headIndex, this`flights, this`free, this`others, this`created
      modifies this`s
      ensures Valid() && s.items == old(s).items && s.next == old(s).next && s.tailBlock == old(s).tailBlock
      ensures s.size == size && Writing(s0, s, xs, n, stop - start) && forall k: nat :: Nth(s, k) == old(Nth(s, k))
      ensures Heap() == old(Heap())
    {
      hide Valid, Inv, Fits, Writing, C.ByConsumers, Base, Number, Blocks, BlockFor, HasBlock, Nth, Made, Heap;
      var current := from;
      InvOfValid();
      while current != stop
        invariant Heap() == old(Heap())
        invariant s.size == size && s.items == old(s).items && s.next == old(s).next && s.tailBlock == old(s).tailBlock
        invariant Valid() && from <= current <= stop && Writing(s0, s, xs, n, current - start)
        invariant forall k: nat :: Nth(s, k) == old(Nth(s, k))
        decreases stop - current
      {
        InvOfValid();
        NumberUnique(current, q, size);
        WritingOneMore(s0, s, xs, n, current - start, q);
        ConstructAt(tailBlock.value, current, xs[current - start]);
        current := current + 1;
        ghost var s1 := s;
        InvOfValid();
        Interfere();
        InvOfValid();
        WritingStays(s0, s1, s, xs, n, current - start);
      }
    }

    /** One block at a time, along the chain from the tail block to `endBlock`. */
    method WriteAll(xs: seq<T>, endBlock: Option<Block>, ghost s0: State<T>, ghost n: nat)
      requires Valid() && Writing(s0, s, xs, n, 0) && endBlock == (if n == 0 then None else Nth(s, n - 1))
      requires s.tailBlock == if xs == [] then endBlock else Nth(s, ChainStart(s))
      modifies this`tailBlock, this`cells, this`value, this`counter, this`headIndex, this`flights, this`free, this`others
      modifies this`created, this`s
      ensures Valid() && s.size == size && s.items == old(s).items && Writing(s0, s, xs, n, |xs|)
      ensures s.tailBlock == endBlock == (if n == 0 then None else Nth(s, n - 1))
      ensures Heap() == old(Heap())
    {
      hide Valid, Inv, Fits, Writing, C.ByConsumers, Base, Number, Blocks, MaskDown, Nth, Made, Heap;
      InvOfValid();
      var start, newTail := tailIndex, tailIndex + |xs|;
      var current := start;
      if xs == [] {
        return;
      }
      WritingFacts(s0, s, xs, n, 0);
      WalkBounds(start, |xs|, n, size);
      ghost var q: nat := Number(start, size);
      while true
        invariant Heap() == old(Heap())
        invariant s.size == size && s.items == old(s).items && start == |s.items| && s.tailBlock == Nth(s, q)
        invariant Valid() && start <= current < newTail && Writing(s0, s, xs, n, current - start)
        invariant forall k: nat :: Nth(s, k) == old(Nth(s, k))
        invariant Number(start, size) <= q < n && Number(current, size) == q
        decreases n - q
      {
        InvOfValid();
        NumberBounds(current, size);
        OffsetIsRemainder(current, size);
        var stopIndex := MaskDown(current, size) + size;
        if newTail < stopIndex {
          stopIndex := newTail;
        }
        WriteBlock(xs, start, current, stopIndex, s0, n, q);
        current := stopIndex;
        InvOfValid();
        WalkOn(s0, s, xs, n, current - start, q);
        WalkReaches(newTail, n, q, current, size);
        if tailBlock == endBlock {
          break;
        }
        ghost var s1 := s;
        SetTailBlock(next[tailBlock.value]);
        WritingMoves(s0, s1, xs, n, current - start, s.tailBlock);
        q := q + 1;
      }
    }

    // ---------- bulk enqueue: undoing ----------

    /** get_block_index_entry_for_index, through the newest header. */
    method EntryFor(k: nat) returns (e: nat)
      requires Mirrors() && Inv(s) && tables != [] && k in s.index.live && s.index.keyed < s.index.count
      ensures s.index.key == key && e < |key| == |value| == |s.index.value| && key[e] == Some(k) && value[e] == Some(s.index.live[k])
    {
      hide Inv, Made;
      FindsLive(s, k);
      var n := |tables| - 1;
      var tail := tails[n];
      var tailBase := key[tables[n][tail]].value;
      e := tables[n][(tail + (k - tailBase)) % |tables[n]|];
    }

    /** Null and rewind, block by block from the first one, which is looked up at positive offsets while the tail goes back. */
    method TakeAllBack(start: nat, first: Option<Block>, ghost s0: State<T>, ghost chain: seq<Block>)
      requires Valid() && Unloading(s0, s, chain, 0, 0) && start == |s.items| && |s.blocks| == Blocks(start, s.size)
      requires first == if chain == [] then None else Some(chain[0])
      modifies this`tails, this`value, this`counter, this`headIndex, this`flights, this`free, this`others, this`created
      modifies this`s
      ensures Valid() && Unloading(s0, s, chain, |chain|, |chain|)
      ensures Heap() == old(Heap())
    {
      hide Valid, Inv, Fits, Unloading, C.ByConsumers, Base, Number, Blocks, MaskDown, Made, Heap;
      InvOfValid();
      MaskDownBefore(start, size);
      var current := MaskDown(start - 1, size);
      var block := first;
      ghost var i := 0;
      UnloadingFacts(s0, s, chain, 0, 0);
      while block.Some?
        invariant Heap() == old(Heap())
        invariant Valid() && i <= |chain| && Unloading(s0, s, chain, i, i)
        invariant block == if i < |chain| then Some(chain[i]) else None
        invariant current + size == Base(|s0.blocks| + i, size)
        decreases |chain| - i
      {
        current := current + size;
        NumberOfBase(|s0.blocks| + i, size);
        UnloadingFacts(s0, s, chain, i, i);
        block := UndoOne(Number(current, size), block.value, s0, chain, i);
        BaseStep(|s0.blocks| + i, size);
        i := i + 1;
      }
    }

    /** idxEntry->value.store(nullptr), rewind_block_index_tail(), and on to the next block. */
    method UndoOne(k: nat, block: Block, ghost s0: State<T>, ghost chain: seq<Block>, ghost i: nat) returns (following: Option<Block>)
      requires Valid() && i < |chain| && Unloading(s0, s, chain, i, i) && k == |s.blocks| + i && block == chain[i]
      modifies this`tails, this`value, this`counter, this`headIndex, this`flights, this`free, this`others, this`created
      modifies this`s
      ensures Valid() && Unloading(s0, s, chain, i + 1, i + 1)
      ensures following == if i + 1 < |chain| then Some(chain[i + 1]) else None
      ensures Heap() == old(Heap())
    {
      hide Valid, Inv, Fits, Unloading, C.ByConsumers, HighOk, Made, Heap;
      InvOfValid();
      UnloadingFinds(s0, s, chain, i);
      MirrorsOfValid();
      var e := EntryFor(k);
      UnloadingTakes(s0, s, chain, i, e);
      ClearBlock(e);
      ghost var s1 := s;
      Interfere();
      UnloadingStays(s0, s1, s, chain, i + 1, i);
      RewindOne(s0, chain, i);
      InvOfValid();
      UnloadingFacts(s0, s, chain, i + 1, i + 1);
      following := next[block];
    }

    method RewindOne(ghost s0: State<T>, ghost chain: seq<Block>, ghost i: nat)
      requires Valid() && i < |chain| && Unloading(s0, s, chain, i + 1, i)
      modifies this`tails, this`value, this`counter, this`headIndex, this`flights, this`free, this`others, this`created
      modifies this`s
      ensures Valid() && Unloading(s0, s, chain, i + 1, i + 1)
      ensures Heap() == old(Heap())
    {
      hide Valid, Inv, Fits, Unloading, C.ByConsumers, HighOk, Made, Heap;
      InvOfValid();
      ShapeOfValid();
      UnloadingRewinds(s0, s, chain, i);
      RewindTail();
      ghost var s1 := s;
      Interfere();
      UnloadingStays(s0, s1, s, chain, i + 1, i + 1);
    }

    /** add_blocks_to_free_list */
    method GiveAllBack(first: Option<Block>, ghost s0: State<T>, ghost chain: seq<Block>)
      requires Valid() && Returning(s0, s, chain, 0) && first == if chain == [] then None else Some(chain[0])
      modifies this`value, this`counter, this`headIndex, this`flights, this`free, this`others, this`created, this`s
      ensures Valid() && Returning(s0, s, chain, |chain|)
      ensures Heap() == old(Heap())
    {
      hide Valid, Inv, Fits, Returning, C.ByConsumers, Made, Heap;
      var block := first;
      ghost var i := 0;
      while block.Some?
        invariant Heap() == old(Heap())
        invariant Valid() && i <= |chain| && Returning(s0, s, chain, i)
        invariant block == if i < |chain| then Some(chain[i]) else None
        decreases |chain| - i
      {
        InvOfValid();
        ReturningFacts(s0, s, chain, i);
        var following := next[block.value];
        ReturningOne(s0, s, chain, i);
        GiveBack(block.value);
        ghost var s1 := s;
        Interfere();
        i := i + 1;
        ReturningStays(s0, s1, s, chain, i);
        block := following;
      }
    }

    /** Undo everything a bulk enqueue has done so far. */
    method RollBack(start: nat, startBlock: Option<Block>, first: Option<Block>, ghost s0: State<T>)
      requires Valid() && s0.size == size && Settled(s0) && BulkLoaded(s0, s, s.index.count) && start == tailIndex
      requires startBlock == s0.tailBlock && first == if s.index.count == |s.blocks| then None else Nth(s, |s.blocks|)
      modifies this`tails, this`tailBlock, this`value, this`counter, this`headIndex, this`flights, this`free, this`others
      modifies this`created, this`s
      ensures Valid() && Settled(s) && s.items == s0.items && s.blocks == s0.blocks && Later(s0, s)
      ensures s.index.count == s0.index.count && s.tailBlock == s0.tailBlock && s.added == s0.added
      ensures Heap() == old(Heap())
    {
      hide Valid, Inv, Fits, BulkLoaded, Unloading, Returning, Settled, Blocks, Nth, Made, Heap;
      InvOfValid();
      BulkFacts(s0, s, s.index.count);
      ghost var chain := UnloadingStarts(s0, s, s.index.count);
      TakeAllBack(start, first, s0, chain);
      ReturningStarts(s0, s, chain);
      GiveAllBack(first, s0, chain);
      ghost var s1 := s;
      SetTailBlock(startBlock);
      InvOfValid();
      ReturningMoves(s0, s1, chain, startBlock);
      ReturningDone(s0, s, chain);
      SettledFacts(s0, s, chain);
    }

    /**
     Enqueue all of xs or nothing. On success the effect is that of enqueuing them one by one. When the sub-queue is
     full, or the index cannot grow, or a block cannot be had, the elements, the tail block, the blocks and the number of
     entries in the index are as before, whatever had been allocated by then. If nobody else does anything meanwhile, it
     succeeds exactly if the blocks needed can be had. Without leave to allocate, nothing is allocated.
     */
    method EnqueueBulk(xs: seq<T>, canAlloc: bool) returns (ok: bool)
      requires Valid() && Settled(s)
      modifies this
      ensures Valid() && Settled(s) && Later(old(s), s)
      ensures s.items == old(s).items + (if ok then xs else [])
      ensures !ok ==> s.blocks == old(s).blocks && s.index.count == old(s).index.count && s.tailBlock == old(s).tailBlock
      ensures Blocks(|old(s).items| + |xs|, size) == Blocks(|old(s).items|, size) ==> ok
      ensures |old(s).blocks| <= Blocks(|old(s).items| + |xs|, size)
      ensures undisturbed ==>
                && B.Sound(old(Supplies(canAlloc)))
                && (ok <==> B.Obtainable(old(Supplies(canAlloc)), |old(s).blocks|,
                                         Blocks(|old(s).items| + |xs|, size) - |old(s).blocks|))
      ensures !canAlloc ==> Heap() == old(Heap())
    {
      hide Valid, Inv, Fits, BulkLoaded, Settled, Writing, Base, Number, Blocks, Nth, Constructed, AddedInOrder, Made,
           B.Obtainable, B.Sound, B.Less, Supplies, Heap;
      SuppliesAreSound(canAlloc);
      ghost var s0 := s;
      InvOfValid();
      var start, startBlock := tailIndex, tailBlock;
      var first: Option<Block>;
      ok, first := AddBlocks(start, |xs|, canAlloc);
      InvOfValid();
      ghost var n := s.index.count;
      BulkFacts(s0, s, n);
      if !ok {
        RollBack(start, startBlock, first, s0);
        return;
      }
      Fill(xs, start, startBlock, first, s0, n);
    }

    /** The blocks are in the index: write the elements and publish them. */
    method Fill(xs: seq<T>, start: nat, startBlock: Option<Block>, first: Option<Block>, ghost s0: State<T>, ghost n: nat)
      requires Valid() && Inv(s0) && s0.size == size && Settled(s0) && BulkLoaded(s0, s, n)
      requires start == tailIndex && startBlock == s0.tailBlock
      requires n == Blocks(start + |xs|, size) && first == if n == |s.blocks| then None else Nth(s, |s.blocks|)
      modifies this`cells, this`tailBlock, this`tailIndex, this`value, this`counter, this`headIndex, this`flights, this`free
      modifies this`others, this`created, this`s
      ensures Valid() && Settled(s) && Later(s0, s) && s.items == s0.items + xs
      ensures Heap() == old(Heap())
    {
      hide Valid, Inv, Fits, BulkLoaded, Settled, Writing, Base, Number, Blocks, Nth, ChainStart, Later, Made, Heap;
      InvOfValid();
      var endBlock := tailBlock;
      StartWriting(xs, start, startBlock, first, s0, n);
      WriteAll(xs, endBlock, s0, n);
      InvOfValid();
      PublishAll(xs, start, s0, n);
    }

    /** Writing starts in the first new block, or in the old tail block. */
    method StartWriting(xs: seq<T>, start: nat, startBlock: Option<Block>, first: Option<Block>, ghost s0: State<T>, ghost n: nat)
      requires Valid() && Inv(s0) && s0.size == size && Settled(s0) && BulkLoaded(s0, s, n)
      requires start == tailIndex && startBlock == s0.tailBlock
      requires n == Blocks(start + |xs|, size) && first == if n == |s.blocks| then None else Nth(s, |s.blocks|)
      modifies this`tailBlock, this`s
      ensures Valid() && Writing(s0, s, xs, n, 0) && s.items == s0.items
      ensures old(tailBlock) == if n == 0 then None else Nth(s, n - 1)
      ensures s.tailBlock == if xs == [] then old(tailBlock) else Nth(s, ChainStart(s))
    {
      hide Valid, Inv, Fits, BulkLoaded, Settled, Writing, Base, Number, Blocks, Made, Nth, ChainStart, Later;
      InvOfValid();
      BulkFacts(s0, s, n);
      WritingBegins(s0, s, xs, n, first);
      SetTailBlock(if start % size == 0 && first.Some? then first else startBlock);
    }

    /** The elements are in place: tailIndex.store. */
    method PublishAll(xs: seq<T>, start: nat, ghost s0: State<T>, ghost n: nat)
      requires Valid() && Writing(s0, s, xs, n, |xs|) && TailIs(s, n) && start == tailIndex
      modifies this`tailIndex, this`s
      ensures Valid() && Settled(s) && Later(s0, s) && s.items == s0.items + xs
    {
      hide Valid, Inv, Fits, Settled, Writing, Base, Number, Blocks, Nth, Constructed, AddedInOrder, Made;
      InvOfValid();
      WritingFacts(s0, s, xs, n, |xs|);
      WritingDone(s0, s, xs, n);
      StoreTailIndex(start + |xs|, xs);
    }

    // ---------- construction and destruction ----------

    /** A new producer, with consumers that are not active. The first index may not be had. */
    constructor (blockBits: nat, width: nat, limit: Option<nat>, ghost initial: nat, indexSize: nat, consumers: nat,
                 free: set<Block>, others: set<Block>, created: nat, memory: nat, undisturbed: bool)
      requires blockBits >= 1 && blockBits + 1 < width && indexSize == Pow2(initial)
      requires Conserved({}, free, others, created)
      ensures Valid() && Settled(s) && s.items == [] && s.head == 0
      ensures this.blockBits == blockBits && this.width == width && this.limit == limit && this.undisturbed == undisturbed
      ensures this.free == free && (undisturbed ==> (tables != [] <==> memory > 0))
    {
      hide Inv, Fits, Conserved, Made, GrownTable, Settled, Enlarge, Supplies, Heap;
      this.blockBits, this.size, this.width, this.limit := blockBits, Pow2(blockBits), width, limit;
      tailIndex, headIndex, tailBlock, nextCapacity := 0, 0, None, indexSize;
      key, value, tables, tails := [], [], [], [];
      cells, counter, next := map[], map[], map[];
      flights := seq(consumers, _ => Idle);
      this.free, this.others, this.created, this.memory, this.undisturbed := free, others, created, memory, undisturbed;
      s := Initial(Pow2(blockBits), initial, consumers);
      new;
      InitialIsSettled<T>(Pow2(blockBits), initial, consumers);
      NothingFits(limit, width);
      assert s.home.Keys == {};
      ghost var junk;
      ghost var s0 := s;
      var ok;
      ok, junk := NewBlockIndex();
      if ok {
        EnlargeSettles(s0, junk);
      }
    }

    /** add_block_to_free_list, when no operation is left */
    method ReturnBlock(b: Block, ghost returned: seq<Block>, ghost start: set<Block>) returns (ghost returned': seq<Block>)
      requires FreedSo(start, free, returned)
      modifies this`free
      ensures returned' == returned + [b] && FreedSo(start, free, returned')
    {
      free := free + {b};
      returned' := returned + [b];
    }

    /** At the start of a block, and at the first element, look the block up; the one before it is finished with. */
    method EnterBlock(index: nat, block: Option<Block>, ghost returned: seq<Block>, ghost start: set<Block>)
      returns (entered: Option<Block>, ghost returned': seq<Block>)
      requires Mirrors() && Inv(s) && Quiet(s) && s.head <= index < |s.items| && s.size == size && FreedSo(start, free, returned)
      modifies this`free
      ensures Mirrors() && FreedSo(start, free, returned')
      ensures if index % size == 0 || block.None?
              then Number(index, size) < |s.blocks| && entered == Some(s.blocks[Number(index, size)])
              else entered == block
      ensures returned' == if index % size == 0 && block.Some? then returned + [block.value] else returned
    {
      hide Inv, Number, Base, Blocks, Offset, FreedSo, Made;
      QuietElement(s, index);
      entered, returned' := block, returned;
      if index % size == 0 || block.None? {
        if block.Some? {
          returned' := ReturnBlock(block.value, returned, start);
        }
        var e := EntryFor(Number(index, size));
        entered := value[e];
      }
    }

    /** What is left when all operations have ended: the elements are destroyed in order and every block is given back once. */
    method Destroy() returns (dropped: seq<T>, ghost returned: seq<Block>)
      requires Valid() && Settled(s) && Quiet(s)
      modifies this`free
      ensures dropped == s.items[s.head..]
      ensures FreedSo(old(free), free, returned) && NoRepeats(returned)
      ensures forall b :: b in returned <==> b in s.home
    {
      hide Valid, Mirrors, Inv, Fits, Settled, Quiet, NoRepeats, Number, Base, Blocks, Offset, FreedSo, Made;
      InvOfValid();
      var index, tail := headIndex, tailIndex;
      var block: Option<Block> := None;
      ghost var k0 := Number(index, size);
      ghost var m: nat := k0;               // the block being emptied
      dropped, returned := [], [];
      QuietEnd(s);
      MirrorsOfValid();
      NothingFreed(free);
      while index != tail
        invariant Mirrors() && s.head <= index <= tail && k0 <= m <= |s.blocks| && returned == s.blocks[k0..m]
        invariant if index == s.head then block == None && m == k0
                  else m == Number(index - 1, size) && m < |s.blocks| && block == Some(s.blocks[m])
        invariant dropped == s.items[s.head..index]
        invariant FreedSo(old(free), free, returned)
        decreases tail - index
      {
        QuietElement(s, index);
        NextNumber(index, size);
        if index % size == 0 && block.Some? {
          SliceGrows(s.blocks, k0, m);
          m := m + 1;
        }
        SliceGrows(s.items, s.head, index);
        block, returned := EnterBlock(index, block, returned, old(free));
        dropped := dropped + [cells[(block.value, Offset(index, size))]];
        index := index + 1;
      }
      if tailBlock.Some? && (headIndex != tail || tail % size != 0) {
        SliceGrows(s.blocks, k0, m);
        returned := ReturnBlock(tailBlock.value, returned, old(free));
      }
      assert |s.blocks| == if headIndex == tail && tail % size == 0 then m else m + 1;
      assert s.blocks[k0..|s.blocks|] == s.blocks[k0..];
    }
  }
}
