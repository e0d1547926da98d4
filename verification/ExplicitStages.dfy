/**
 The stages of an enqueue on an explicit sub-queue, as relations between states: settled,
 a block added, elements written that are not published yet. Each says what the consumers'
 steps in between leave as it is.
 */
module ExplicitStages {
  import opened BlockNumbers
  import opened BlockIndex
  import opened ExplicitState
  import opened ExplicitUpdates
  import opened Remainders

  /** No enqueue is running. */
  ghost predicate Settled<T>(s: State<T>)
    requires s.size > 0
  {
    s.published == |s.blocks| == Blocks(|s.items|, s.size) && RingLinked(s) && AtTail(s)
  }

  /** The blocks of the ring exist and are not in the pool. */
  ghost predicate OwnsRing<T>(s: State<T>, free: set<Block>, created: nat) {
    && (forall k: nat :: Oldest(s) <= k < |s.blocks| ==> s.blocks[k] < created && s.blocks[k] !in free)
    && (forall b :: b in free ==> b < created)
  }

  lemma NoStep<T>(s: State<T>)
    ensures ByConsumers(s, s)
  {
  }

  /** The ring and who owns it do not depend on the rest. */
  lemma LinkedFramed<T>(s: State<T>, s': State<T>)
    requires s'.blocks == s.blocks && s'.slots == s.slots && s'.next == s.next && s'.tailBlock == s.tailBlock
    ensures RingLinked(s) ==> RingLinked(s')
    ensures forall free, created :: OwnsRing(s, free, created) ==> OwnsRing(s', free, created)
  {
    if RingLinked(s) {
      assert s.blocks != [] ==> LinksTo(s', |s.blocks| - 1, s.blocks[Oldest(s)]);
      forall k: nat | Oldest(s') <= k < |s'.blocks| - 1 ensures NextLinked(s', k) {
        assert NextLinked(s, k);
      }
    }
  }

  lemma StepFacts<T>(s: State<T>, t: nat, n: nat, free: set<Block>, created: nat)
    requires Inv(s) && RingLinked(s) && OwnsRing(s, free, created) && t < |s.flights|
    requires s.flights[t].Idle? ==> 0 < n && s.head + n <= |s.items|
    ensures CanStep(s, t, n) && Inv(StepOf(s, t, n)) && ByConsumers(s, StepOf(s, t, n))
    ensures RingLinked(StepOf(s, t, n)) && OwnsRing(StepOf(s, t, n), free, created)
  {
    hide Inv, RingLinked, OwnsRing;
    SizeOfInv(s);
    if !s.flights[t].Idle? {
      NeverStuck(s, t, n);
    }
    StepKeepsInv(s, t, n);
    StepIsByConsumers(s, t, n);
    LinkedFramed(s, StepOf(s, t, n));
  }

  /** The newest header is the same one, with the same number of slots. */
  ghost predicate SameCapacity<T>(s: State<T>, s': State<T>) {
    && |s'.tables| == |s.tables| && s'.shift == s.shift
    && (s.tables != [] ==> |s'.tables[Last(s')]| == |s.tables[Last(s)]|)
  }

  /** From s to s', the oldest block has been taken for the next number. */
  ghost predicate TookFrom<T>(s: State<T>, s': State<T>)
    requires 0 <= Oldest(s) < |s.blocks|
  {
    && s' == s.(tables := s'.tables, blocks := s.blocks + [s.blocks[Oldest(s)]], tailBlock := Some(s.blocks[Oldest(s)]),
                kept := s'.kept)
    && s'.tables != [] && SameCapacity(s, s') && Oldest(s) < s'.kept && s.kept <= s'.kept && (s'.kept == s.kept || s'.kept == Oldest(s) + 1)
  }

  lemma TakeIsTook<T>(s: State<T>)
    requires Inv(s) && s.tables != [] && |s.shift| == |s.tables| && |s.tables[Last(s)]| > 0 && 0 < s.slots <= |s.blocks|
    ensures TookFrom(s, Take(s))
  {
  }

  lemma TakeOwns<T>(s: State<T>, free: set<Block>, created: nat)
    requires s.tables != [] && |s.shift| == |s.tables| && |s.tables[Last(s)]| > 0 && 0 < s.slots <= |s.blocks|
    requires OwnsRing(s, free, created)
    ensures OwnsRing(Take(s), free, created)
  {
  }

  /** The slot before the next one is that of the last block. */
  lemma FrontBefore(capacity: nat, shift: int, n: nat)
    requires capacity > 0
    ensures (Slot(capacity, shift, n) - 1) % capacity == Slot(capacity, shift, n - 1)
  {
    RemainderLeft(n + shift, -1, capacity);
  }

  /** From s to s', the index has grown. */
  ghost predicate Enlarged<T>(s: State<T>, s': State<T>, capacity: nat, exposed: nat) {
    && s' == s.(tables := s'.tables, fronts := s'.fronts, shift := s'.shift, seen := s'.seen)
    && s'.tables != [] && |s'.tables[Last(s')]| == capacity && s.slots < capacity
    && |s'.shift| == |s'.tables| && s'.shift[Last(s')] == -Oldest(s)
  }

  lemma FrontAfterCopy<T>(s: State<T>, capacity: nat)
    requires s.slots < capacity && s.slots <= |s.blocks|
    ensures Slot(capacity, -Oldest(s), |s.blocks|) == s.slots
  {
    SmallRemainder(s.slots, capacity);
  }

  /** Growing the index is possible and keeps the invariant. */
  lemma GrowFacts<T>(s: State<T>, indexSize: nat, exposed: nat)
    requires Inv(s) && indexSize > 0 && s.kept == Oldest(s) && exposed <= s.slots && (s.published > 0 ==> exposed > 0)
    requires s.tables != [] && |s.shift| == |s.tables| ==> indexSize == |s.tables[Last(s)]|
    ensures s.slots < 2 * indexSize && s.slots <= |s.blocks| && |s.seen| == |s.tables| == |s.shift|
    ensures s.slots > 0 ==> s.tables != [] && |s.tables[Last(s)]| > 0
    ensures Inv(Enlarge(s, 2 * indexSize, exposed)) && Enlarged(s, Enlarge(s, 2 * indexSize, exposed), 2 * indexSize, exposed)
  {
    hide Inv, HeaderOk, Copied;
    NewestOfInv(s);
    EnlargeKeepsInv(s, 2 * indexSize, exposed);
    CopiedLength(s, 2 * indexSize);
  }

  /** From s to s', the new block b has been put in the ring as the next number. */
  ghost predicate AddedTo<T>(s: State<T>, s': State<T>, b: Block, count: nat) {
    && s' == s.(tables := s'.tables, blocks := s.blocks + [b], slots := s.slots + 1, tailBlock := Some(b),
                counter := s.counter[b := count], next := s'.next)
    && |s'.tables| == |s.tables|
  }

  lemma AddFacts<T>(s: State<T>, b: Block, count: nat, free: set<Block>, created: nat)
    requires Inv(s) && s.tables != [] && |s.shift| == |s.tables| && |s.tables[Last(s)]| > s.slots && NotInRing(s, b)
    requires OwnsRing(s, free, created) && b < created && b !in free && Inv(Add(s, b, count))
    requires s.tailBlock.Some? ==> s.tailBlock.value in s.next
    ensures var s' := Add(s, b, count).(next := Inserted(s, b));
            Inv(s') && OwnsRing(s', free, created) && AddedTo(s, s', b, count) && s'.kept == s.kept
  {
    hide IndexOk, RingOk, CountOk, FlightsOk, CellsOk;
    NewestOfInv(s);
    var s1 := Add(s, b, count);
    var s' := s1.(next := Inserted(s, b));
    NextDoesNotMatter(s1, s'.next);
    forall k: nat | Oldest(s') <= k < |s'.blocks| ensures s'.blocks[k] < created && s'.blocks[k] !in free {
      assert k < |s.blocks| ==> s'.blocks[k] == s.blocks[k];
    }
  }

  lemma NextDoesNotMatter<T>(s: State<T>, next: map<Block, Block>)
    requires Inv(s)
    ensures Inv(s.(next := next))
  {
    hide IndexOk;
    var s' := s.(next := next);
    IndexFramed(s, s');
    forall k: nat | k < s'.published ensures CountOk(s', k) {
      assert CountOk(s, k);
    }
    forall t | 0 <= t < |s'.flights| ensures FlightOk(s', s'.flights[t]) {
      assert FlightOk(s, s.flights[t]);
    }
    forall i: nat | i < |s'.items| ensures ItemOk(s', i) {
      assert ItemOk(s, i);
    }
  }

  // ---------- the stages of an enqueue ----------

  ghost predicate HasFrontEntry<T>(s: State<T>) {
    s.blocks != [] ==> s.tables != [] && |s.fronts| == |s.tables| && FrontOk(s.tables[Last(s)], s.fronts[Last(s)])
  }

  /** What an enqueue that has not published anything leaves as it is. */
  ghost predicate Since<T>(s0: State<T>, s: State<T>) {
    && s.size == s0.size && s.items == s0.items && s.published == s0.published && s0.blocks <= s.blocks
    && s0.head <= s.head && |s.flights| == |s0.flights|
  }

  /** Since s0, blocks have been added and are ready to be filled. */
  ghost predicate Began<T>(s0: State<T>, s: State<T>) {
    Since(s0, s) && s.kept <= s.published && Untouched(s) && HasFrontEntry(s)
  }

  lemma SettledFacts<T>(s: State<T>)
    requires Inv(s) && Settled(s)
    ensures s.published == |s.blocks| == Blocks(|s.items|, s.size) && s.kept <= |s.blocks| && AtTail(s) && s.slots <= |s.blocks|
    ensures s.blocks != [] ==> 0 <= Oldest(s) < s.published && s.tables != []
    ensures s.blocks == [] <==> s.tailBlock == None
  {
    hide HeaderOk, CountOk, FlightsOk, CellsOk;
  }

  lemma TookFacts<T>(s: State<T>, s': State<T>)
    requires Inv(s') && 0 <= Oldest(s) < |s.blocks| && TookFrom(s, s') && s.published <= |s.blocks|
    ensures |s'.blocks| == |s.blocks| + 1 && s'.tailBlock == Some(s'.blocks[|s.blocks|]) && Since(s, s')
    ensures Oldest(s') == Oldest(s) + 1 && s'.published <= |s.blocks| && s'.slots == s.slots && s'.tables != []
  {
  }

  /** Consumers keep all that the producer is working with. */
  lemma ConsumersKeep<T>(s: State<T>, s': State<T>)
    requires ByConsumers(s, s')
    ensures Since(s, s') && s'.blocks == s.blocks && s'.slots == s.slots && s'.kept == s.kept && s'.next == s.next
    ensures s'.tables == s.tables && s'.fronts == s.fronts && s'.shift == s.shift && s'.tailBlock == s.tailBlock
    ensures s'.cells == s.cells && s'.seen == s.seen
    ensures Untouched(s) ==> Untouched(s')
    ensures HasFrontEntry(s) ==> HasFrontEntry(s')
  {
  }

  /** Since s0, which was settled, one block has been added; consumers may not start from it yet. */
  ghost predicate OneMore<T>(s0: State<T>, s: State<T>) {
    Since(s0, s) && |s.blocks| == |s0.blocks| + 1 && s.kept <= s.published < |s.blocks| && Untouched(s) && s.tables != []
  }

  lemma ResetFacts<T>(s0: State<T>, s1: State<T>, s2: State<T>, k: nat)
    requires Inv(s2) && Since(s0, s1) && Since(s1, s2) && s1.blocks == s2.blocks && |s1.blocks| == k + 1 == |s0.blocks| + 1
    requires s2.published == k && Oldest(s2) <= k && s2.kept <= k && s2.tables != []
    ensures OneMore(s0, Reset(s2, k))
  {
  }

  lemma OneMoreStays<T>(s0: State<T>, s: State<T>, s': State<T>)
    requires OneMore(s0, s) && ByConsumers(s, s')
    ensures OneMore(s0, s') && s'.blocks == s.blocks && s'.tailBlock == s.tailBlock
  {
  }

  /** Nothing of the producer's has changed, but perhaps the size of the index. */
  ghost predicate Unchanged<T>(s0: State<T>, s: State<T>) {
    && Since(s0, s) && s.blocks == s0.blocks && s.slots == s0.slots && s.kept == s0.kept && s.next == s0.next
    && s.tailBlock == s0.tailBlock && s.cells == s0.cells
  }

  lemma UnchangedBy<T>(s: State<T>, s': State<T>)
    requires s.size > 0 && Settled(s) && ByConsumers(s, s')
    ensures Unchanged(s, s') && Settled(s') && s'.tables == s.tables
  {
    LinkedFramed(s, s');
  }

  lemma UnchangedByGrowth<T>(s0: State<T>, s: State<T>, s': State<T>, capacity: nat, exposed: nat)
    requires s0.size > 0 && Unchanged(s0, s) && Settled(s0) && Enlarged(s, s', capacity, exposed)
    ensures Unchanged(s0, s') && Settled(s') && s'.tables != [] && s'.slots < capacity
  {
    LinkedFramed(s0, s');
  }

  lemma UnchangedSettles<T>(s0: State<T>, s: State<T>)
    requires s0.size > 0 && Unchanged(s0, s) && Settled(s0)
    ensures Settled(s) && AtTail(s) && s.blocks == s0.blocks && s.items == s0.items
  {
    LinkedFramed(s0, s);
  }

  lemma AddedFacts<T>(s0: State<T>, s: State<T>, s': State<T>, b: Block)
    requires s0.size > 0 && Settled(s0) && Unchanged(s0, s) && AddedTo(s, s', b, 0) && Inv(s') && s.tables != []
    ensures OneMore(s0, s') && AtTail(s')
  {
    hide IndexOk, CountOk, FlightsOk, CellsOk;
  }

  /** The producer can tell whether the block ahead is empty, and if it is not, all blocks of the ring are in the index. */
  lemma AheadFacts<T>(s: State<T>)
    requires Inv(s) && Settled(s)
    ensures s.tailBlock.Some? ==> s.tailBlock.value in s.next && s.next[s.tailBlock.value] in s.counter
    ensures s.tailBlock.Some? && s.counter[s.next[s.tailBlock.value]] == s.size ==> OldestIsDone(s)
    ensures s.tailBlock.Some? && s.counter[s.next[s.tailBlock.value]] != s.size ==> s.kept == Oldest(s)
    ensures s.tailBlock.None? ==> s.kept == Oldest(s)
  {
    hide HeaderOk, CountOk, FlightsOk, CellsOk;
    if s.tailBlock.Some? {
      NextIsOldest(s);
    }
  }

  lemma OneMoreFacts<T>(s0: State<T>, s: State<T>)
    requires OneMore(s0, s)
    ensures |s.blocks| == |s0.blocks| + 1
  {
  }

  lemma BeganFacts<T>(s0: State<T>, s: State<T>)
    requires Began(s0, s)
    ensures s.size == s0.size && s.items == s0.items && s.published == s0.published && s0.blocks <= s.blocks
    ensures s.kept <= s.published && Untouched(s) && HasFrontEntry(s)
  {
  }

  lemma BeganAtOnce<T>(s: State<T>)
    requires Inv(s) && Settled(s)
    ensures Began(s, s) && AtTail(s)
  {
    NewestOfInv(s);
  }

  /** The block of an element that is not published yet is in the ring. */
  lemma Writable<T>(s0: State<T>, s: State<T>, i: nat)
    requires Inv(s) && Began(s0, s) && |s.items| <= i < Base(|s.blocks|, s.size)
    ensures Oldest(s) <= Number(i, s.size) < |s.blocks|
  {
    hide IndexOk, FlightsOk, CellsOk, RingOk;
    var k := Number(i, s.size);
    NumberBelow(i, |s.blocks|, s.size);
    NumberBounds(i, s.size);
    if k < s.published {
      assert CountOk(s, k);
    }
  }

  lemma TailIsLast<T>(s: State<T>)
    requires AtTail(s) && s.blocks != []
    ensures s.tailBlock == Some(s.blocks[|s.blocks| - 1])
  {
  }

  lemma NothingConstructed<T>(s: State<T>, xs: seq<T>)
    requires s.size > 0
    ensures Constructed(s, xs, 0)
  {
  }

  /** Writing element i leaves an element before it in its cell. */
  lemma WrittenStays<T>(s: State<T>, xs: seq<T>, m: nat, i: nat, x: T)
    requires Inv(s) && |s.items| <= m < i && m < |s.items| + |xs| && Written(s, xs, m)
    requires Oldest(s) <= Number(i, s.size) < |s.blocks|
    ensures Written(Construct(s, s.blocks[Number(i, s.size)], Offset(i, s.size), x), xs, m)
  {
    hide IndexOk, FlightsOk, CellsOk, CountsOk, Base, Number;
    NumberBounds(m, s.size);
    NumberBounds(i, s.size);
    assert Number(m, s.size) != Number(i, s.size) ==> s.blocks[Number(m, s.size)] != s.blocks[Number(i, s.size)];
  }

  /** One more element is in its cell, and the ones before it still are. */
  lemma ConstructedOneMore<T>(s0: State<T>, s: State<T>, xs: seq<T>, j: nat)
    requires Inv(s) && Began(s0, s) && j < |xs| && Constructed(s, xs, j) && |s.items| + j < Base(|s.blocks|, s.size)
    ensures Number(|s.items| + j, s.size) < |s.blocks|
    ensures var i := |s.items| + j;
            var s' := Construct(s, s.blocks[Number(i, s.size)], Offset(i, s.size), xs[j]);
            Constructed(s', xs, j + 1) && Began(s0, s')
  {
    hide Inv, Base, Number, Offset, Written;
    SizeOfInv(s);
    var i := |s.items| + j;
    Writable(s0, s, i);
    var s' := Construct(s, s.blocks[Number(i, s.size)], Offset(i, s.size), xs[j]);
    WrittenNow(s, xs, i);
    forall m: nat | |s.items| <= m < |s.items| + j + 1 ensures Written(s', xs, m) {
      if m < i {
        WrittenStays(s, xs, m, i, xs[j]);
      }
    }
  }

  lemma WrittenNow<T>(s: State<T>, xs: seq<T>, i: nat)
    requires s.size > 0 && |s.items| <= i < |s.items| + |xs| && Oldest(s) <= Number(i, s.size) < |s.blocks|
    ensures Written(Construct(s, s.blocks[Number(i, s.size)], Offset(i, s.size), xs[i - |s.items|]), xs, i)
  {
    hide Number, Base, Offset;
  }

  lemma ConstructedStays<T>(s0: State<T>, s: State<T>, s': State<T>, xs: seq<T>, j: nat)
    requires s.size > 0 && ByConsumers(s, s') && Began(s0, s) && j <= |xs| && Constructed(s, xs, j)
    ensures s'.size == s.size && Began(s0, s') && Constructed(s', xs, j) && s'.items == s.items && s'.blocks == s.blocks
    ensures s'.tailBlock == s.tailBlock && s'.next == s.next
  {
    hide Number, Base, Offset;
    forall m: nat | |s.items| <= m < |s.items| + j ensures Written(s', xs, m) {
      assert Written(s, xs, m);
    }
  }

  lemma ExposedFacts<T>(s0: State<T>, s: State<T>)
    requires OneMore(s0, s) && |s.shift| == |s.tables| == |s.fronts| && |s.tables[Last(s)]| > 0
    requires FrontOk(s.tables[Last(s)], StoreFront(s).fronts[Last(s)])
    ensures Began(s0, StoreFront(s))
  {
  }

  // ---------- copying the index ----------

  /** The i-th of the last `used` slots before the front. */
  function UsedSlot(front: nat, used: nat, i: nat, c: nat): (p: nat)
    requires c > 0
    ensures p < c
  {
    (front - used + i) % c
  }

  lemma UsedSlotSteps(front: nat, used: nat, i: nat, c: nat)
    requires c > 0
    ensures (UsedSlot(front, used, i, c) + 1) % c == UsedSlot(front, used, i + 1, c)
  {
    RemainderLeft(front - used + i, 1, c);
  }

  /** They end at the front, and not before, unless that is a whole turn. */
  lemma EndsAtFront(front: nat, used: nat, i: nat, c: nat)
    requires front < c && 1 <= i <= used <= c
    ensures UsedSlot(front, used, i, c) == front <==> i == used
  {
    SmallRemainder(front, c);
    if UsedSlot(front, used, i, c) == front && i < used {
      SameRemainder(front - used + i, front, used, c);
      assert Slot(c, front, i) == Slot(c, front, used);
      NearAndSameSlot(i, used, front, c);
    }
  }

  /** The loop of new_block_index: the entries of the last `used` slots before the front. */
  method CopyUsed(prev: seq<Option<Entry>>, front: nat, used: nat) returns (entries: seq<Option<Entry>>)
    requires front < |prev| && used <= |prev|
    ensures |entries| == used && forall i :: 0 <= i < used ==> entries[i] == prev[UsedSlot(front, used, i, |prev|)]
  {
    entries := [];
    if used != 0 {
      var i := (front - used) % |prev|;
      assert i == UsedSlot(front, used, 0, |prev|);
      hide UsedSlot;
      entries := [prev[i]];
      UsedSlotSteps(front, used, 0, |prev|);
      EndsAtFront(front, used, 1, |prev|);
      i := (i + 1) % |prev|;
      while i != front
        invariant 1 <= |entries| <= used && i == UsedSlot(front, used, |entries|, |prev|)
        invariant i == front <==> |entries| == used
        invariant forall j :: 0 <= j < |entries| ==> entries[j] == prev[UsedSlot(front, used, j, |prev|)]
        decreases used - |entries|
      {
        EndsAtFront(front, used, |entries| + 1, |prev|);
        UsedSlotSteps(front, used, |entries|, |prev|);
        entries := entries + [prev[i]];
        i := (i + 1) % |prev|;
      }
    }
  }

  /** Those slots are the ring's, from the oldest block on. */
  lemma UsedSlotOfRing(capacity: nat, shift: int, n: nat, used: nat, i: nat)
    requires capacity > 0
    ensures UsedSlot(Slot(capacity, shift, n), used, i, capacity) == Slot(capacity, shift, n - used + i)
  {
    RemainderLeft(n + shift, i - used, capacity);
  }

  /** The used slots, copied one after the other, are the entries of the larger table. */
  lemma CopiedFrom<T>(s: State<T>, front: nat, entries: seq<Option<Entry>>, capacity: nat)
    requires s.tables != [] && |s.shift| == |s.tables| && |s.tables[Last(s)]| > 0 && s.slots <= |s.blocks| && s.slots <= capacity
    requires front == Slot(|s.tables[Last(s)]|, s.shift[Last(s)], |s.blocks|) && |entries| == s.slots
    requires forall i :: 0 <= i < s.slots ==> entries[i] == s.tables[Last(s)][UsedSlot(front, s.slots, i, |s.tables[Last(s)]|)]
    ensures Copied(s, capacity) == entries + seq(capacity - |entries|, _ => None)
  {
    hide UsedSlot;
    var table := s.tables[Last(s)];
    forall i: nat | i < s.slots ensures entries[i] == table[Slot(|table|, s.shift[Last(s)], Oldest(s) + i)] {
      UsedSlotOfRing(|table|, s.shift[Last(s)], |s.blocks|, s.slots, i);
    }
    forall p: nat | p < capacity ensures Copied(s, capacity)[p] == (entries + seq(capacity - |entries|, _ => None))[p] {
    }
  }

  lemma CopiedNone<T>(s: State<T>, capacity: nat)
    requires s.slots == 0
    ensures Copied(s, capacity) == [] + seq(capacity, _ => None)
  {
  }

  // ---------- the blocks of a bulk enqueue ----------

  /** Number k was given a block of the ring that still looks empty. */
  ghost predicate Reused<T>(s: State<T>, k: nat)
    requires k < |s.blocks|
  {
    && s.slots <= k && s.blocks[k] == s.blocks[k - s.slots]
    && s.blocks[k] in s.counter && s.counter[s.blocks[k]] == s.size
  }

  /** Since s0, which was settled, m empty blocks ahead have been taken, and nothing else has been done. */
  ghost predicate Taking<T>(s0: State<T>, s: State<T>, m: nat) {
    && Since(s0, s) && |s.blocks| == |s0.blocks| + m && s.slots == s0.slots && s.next == s0.next && s.cells == s0.cells
    && SameCapacity(s0, s) && AtTail(s) && s0.kept <= s.kept
    && 0 <= Oldest(s) <= s.published == |s0.blocks|
    && forall k: nat :: |s0.blocks| <= k < |s.blocks| ==> Reused(s, k)
  }

  lemma TakingStarts<T>(s: State<T>)
    requires Inv(s) && Settled(s)
    ensures Taking(s, s, 0) && Gathered(s, s)
  {
    hide HeaderOk, CountOk, FlightsOk, CellsOk;
    NewestOfInv(s);
  }

  lemma TakingStays<T>(s0: State<T>, s: State<T>, s': State<T>, m: nat)
    requires Taking(s0, s, m) && ByConsumers(s, s')
    ensures Taking(s0, s', m)
  {
    forall k: nat | |s0.blocks| <= k < |s'.blocks| ensures Reused(s', k) {
      assert Reused(s, k);
    }
  }

  lemma TakingOne<T>(s0: State<T>, s: State<T>, s': State<T>, m: nat)
    requires Inv(s) && Inv(s') && Taking(s0, s, m) && Oldest(s) < s.published && OldestIsDone(s) && TookFrom(s, s')
    requires s.blocks[Oldest(s)] in s.counter && s.counter[s.blocks[Oldest(s)]] == s.size
    ensures Taking(s0, s', m + 1)
  {
    hide Inv;
    forall k: nat | |s0.blocks| <= k < |s'.blocks| ensures Reused(s', k) {
      assert k < |s.blocks| ==> Reused(s, k);
    }
  }

  /** When the producer stops taking blocks, the index has all blocks of the ring. */
  lemma StopsTaking<T>(s0: State<T>, s: State<T>, m: nat)
    requires Inv(s) && RingLinked(s) && Taking(s0, s, m)
    ensures s.tailBlock.Some? ==> s.tailBlock.value in s.next && s.next[s.tailBlock.value] in s.counter
    ensures s.tailBlock.Some? ==>
      var ahead := s.next[s.tailBlock.value];
      var isFirst := m > 0 && ahead == s.blocks[|s0.blocks|];
      && 0 <= Oldest(s) < |s.blocks| && ahead == s.blocks[Oldest(s)] && (isFirst ==> Oldest(s) == s.published)
      && (!isFirst && s.counter[ahead] == s.size ==> Oldest(s) < s.published && OldestIsDone(s) && ahead == s.blocks[Oldest(s)])
      && (isFirst || s.counter[ahead] != s.size ==> s.kept == Oldest(s))
    ensures s.tailBlock.None? ==> s.kept == Oldest(s)
  {
    hide HeaderOk, CountOk, FlightsOk, CellsOk;
    if s.tailBlock.Some? {
      NextIsOldest(s);
      if Oldest(s) == s.published {
        assert m > 0 && Reused(s, |s0.blocks|);
      } else if m > 0 {
        assert s.blocks[Oldest(s)] != s.blocks[|s0.blocks|];
      }
    }
  }

  /** Since s0, blocks have been added for a bulk enqueue. */
  ghost predicate Gathered<T>(s0: State<T>, s: State<T>) {
    Since(s0, s) && AtTail(s) && Oldest(s) <= s.published == |s0.blocks| && (s.blocks != [] ==> s.tables != [])
  }

  lemma TakingGathers<T>(s0: State<T>, s: State<T>, m: nat)
    requires Inv(s) && Taking(s0, s, m)
    ensures Gathered(s0, s)
  {
    NewestOfInv(s);
  }

  // ---------- a bulk enqueue that fails ----------

  /** The tail block, the front and the slots used are as before; the entries of the blocks taken stay overwritten. */
  function Restored<T>(s0: State<T>, s: State<T>): State<T> {
    s.(blocks := s0.blocks, tailBlock := s0.tailBlock)
  }

  lemma RestoredIndex<T>(s0: State<T>, s: State<T>, m: nat)
    requires Inv(s) && Taking(s0, s, m)
    ensures IndexOk(Restored(s0, s))
  {
    hide CountsOk, FlightsOk, CellsOk, RingOk, EntriesOk, Maps;
    var s' := Restored(s0, s);
    forall j: nat | j < |s'.tables| ensures HeaderOk(s', j) {
      HeaderOfInv(s, j);
      MapsPrefix(s.tables[j], s.shift[j], s.blocks, s0.blocks, s.kept, if j == Last(s) then |s0.blocks| else s.seen[j]);
    }
  }

  lemma MapsPrefix(table: seq<Option<Entry>>, shift: int, blocks: seq<Block>, blocks': seq<Block>, lo: nat, hi: nat)
    requires |table| > 0 && hi <= |blocks'| && blocks' <= blocks
    ensures Maps(table, shift, blocks, lo, hi) ==> Maps(table, shift, blocks', lo, hi)
    ensures Maps(table, shift, blocks, lo, |blocks|) ==> Maps(table, shift, blocks', lo, hi)
  {
    forall k: nat | lo <= k < hi
      ensures HasEntry(table, shift, k, blocks[k]) ==> HasEntry(table, shift, k, blocks'[k])
    {
    }
  }

  lemma RestoredCounts<T>(s0: State<T>, s: State<T>, m: nat)
    requires Inv(s0) && Settled(s0) && Inv(s) && Taking(s0, s, m)
    ensures CountsOk(Restored(s0, s))
  {
    hide IndexOk, FlightsOk, CellsOk, RingOk;
    var s' := Restored(s0, s);
    assert |s.done| == s.published == |s0.blocks|;
    forall k: nat | k < s'.published ensures CountOk(s', k) {
      assert CountOk(s, k);
      if Oldest(s') <= k < Oldest(s) {
        assert Reused(s, k + s.slots);
      }
    }
  }

  lemma RestoredRest<T>(s0: State<T>, s: State<T>, m: nat)
    requires Inv(s) && Taking(s0, s, m)
    ensures FlightsOk(Restored(s0, s)) && CellsOk(Restored(s0, s))
  {
    hide IndexOk, CountsOk, RingOk;
    var s' := Restored(s0, s);
    forall t | 0 <= t < |s'.flights| ensures FlightOk(s', s'.flights[t]) {
      assert FlightOk(s, s.flights[t]);
    }
    forall i: nat | i < |s'.items| ensures ItemOk(s', i) {
      assert ItemOk(s, i);
    }
  }

  /** A bulk enqueue that fails before it has put a new block in the ring leaves everything as it was. */
  lemma RestoredKeepsInv<T>(s0: State<T>, s: State<T>, m: nat)
    requires Inv(s0) && Settled(s0) && Inv(s) && Taking(s0, s, m)
    ensures var s' := Restored(s0, s);
            && Inv(s') && Settled(s') && s'.items == s0.items && s'.blocks == s0.blocks && s'.slots == s0.slots
            && s'.next == s0.next && s'.tailBlock == s0.tailBlock
  {
    hide Inv, IndexOk, CountsOk, FlightsOk, CellsOk, RingOk;
    RestoredIndex(s0, s, m);
    RestoredCounts(s0, s, m);
    RestoredRest(s0, s, m);
    RestoredInv(s0, s);
    LinkedFramed(s0, Restored(s0, s));
  }

  lemma RestoredInv<T>(s0: State<T>, s: State<T>)
    requires Inv(s0) && Inv(s) && s.size == s0.size && s.items == s0.items && s.published == s0.published && s.slots == s0.slots
    requires IndexOk(Restored(s0, s)) && CountsOk(Restored(s0, s)) && FlightsOk(Restored(s0, s)) && CellsOk(Restored(s0, s))
    ensures Inv(Restored(s0, s))
  {
  }

  lemma GatheredFacts<T>(s0: State<T>, s: State<T>)
    requires Gathered(s0, s)
    ensures s.size == s0.size && s.items == s0.items && s0.blocks <= s.blocks && s.published == |s0.blocks|
    ensures Oldest(s) <= s.published && (s.blocks != [] ==> s.tables != []) && AtTail(s)
  {
  }

  lemma TakingFacts<T>(s0: State<T>, s: State<T>, m: nat)
    requires Taking(s0, s, m)
    ensures s.size == s0.size && s.items == s0.items && s0.blocks <= s.blocks && s.published == |s0.blocks|
    ensures |s.blocks| == |s0.blocks| + m && s.slots == s0.slots && AtTail(s) && 0 <= Oldest(s) <= s.published
    ensures m == 0 ==> s.blocks == s0.blocks
    ensures |s.tables| == |s0.tables|
  {
  }

  /** After the producer has looked at the block ahead, consumers may finish more, but not less. */
  lemma TakingAhead<T>(s0: State<T>, s: State<T>, s': State<T>, m: nat)
    requires Inv(s) && Inv(s') && Taking(s0, s, m) && ByConsumers(s, s') && OldestIsDone(s) && Oldest(s) < s.published
    ensures OldestIsDone(s') && Oldest(s') < s'.published
    ensures s'.blocks[Oldest(s')] in s'.counter && s'.counter[s'.blocks[Oldest(s')]] == s'.size
  {
    hide IndexOk, RingOk, FlightsOk, CellsOk;
    assert CountOk(s', Oldest(s'));
  }

  /** The block that was the tail block in s0 is in the ring. */
  ghost predicate KeepsTail<T>(s0: State<T>, s: State<T>) {
    s0.blocks != [] ==> exists p: nat :: Oldest(s) <= p < |s.blocks| && s.blocks[p] == s0.blocks[|s0.blocks| - 1]
  }

  lemma TakingKeepsTail<T>(s0: State<T>, s: State<T>, m: nat)
    requires Taking(s0, s, m) && (s0.blocks != [] ==> s0.slots > 0)
    ensures KeepsTail(s0, s)
  {
    var n := |s0.blocks|;
    if n > 0 && Oldest(s) == n {
      assert Reused(s, n - 1 + s.slots);
      assert s.blocks[n - 1 + s.slots] == s0.blocks[n - 1];
    } else if n > 0 {
      assert s.blocks[n - 1] == s0.blocks[n - 1];
    }
  }

  /** How far a bulk enqueue has come: m blocks taken, `injected` new ones, and whether the index has grown. */
  ghost predicate Progress<T>(s0: State<T>, s: State<T>, m: nat, injected: nat, grew: bool) {
    && Gathered(s0, s) && |s.blocks| == |s0.blocks| + m + injected && s.slots == s0.slots + injected && KeepsTail(s0, s)
    && (injected == 0 && !grew ==> Taking(s0, s, m))
    && (injected == 0 && m == 0 ==> Unchanged(s0, s))
    && (injected == 0 && grew ==>
          s.tables != [] && |s.shift| == |s.tables| && s.shift[Last(s)] == -Oldest(s) && s.slots < |s.tables[Last(s)]|)
  }

  lemma ProgressStays<T>(s0: State<T>, s: State<T>, s': State<T>, m: nat, injected: nat, grew: bool)
    requires Progress(s0, s, m, injected, grew) && ByConsumers(s, s')
    ensures Progress(s0, s', m, injected, grew) && s'.blocks == s.blocks && s'.slots == s.slots && s'.kept == s.kept
    ensures s'.tables == s.tables
  {
    hide Reused;
    if injected == 0 && !grew {
      TakingStays(s0, s, s', m);
    }
  }

  lemma ProgressGrows<T>(s0: State<T>, s: State<T>, s': State<T>, m: nat, injected: nat, grew: bool, capacity: nat, exposed: nat)
    requires Progress(s0, s, m, injected, grew) && Enlarged(s, s', capacity, exposed)
    ensures Progress(s0, s', m, injected, true) && s'.blocks == s.blocks && s'.slots == s.slots && s'.kept == s.kept
    ensures s'.slots < capacity && s'.tables != []
  {
    hide Taking;
  }

  lemma ProgressAdds<T>(s0: State<T>, s: State<T>, s': State<T>, m: nat, injected: nat, grew: bool, b: Block, count: nat)
    requires Inv(s) && Inv(s') && Progress(s0, s, m, injected, grew) && AddedTo(s, s', b, count) && s.tables != []
    ensures Progress(s0, s', m, injected + 1, grew) && s.blocks <= s'.blocks && s'.kept == s.kept && Oldest(s') == Oldest(s)
    ensures s'.tailBlock == Some(b)
  {
    hide Taking, Inv;
  }

  lemma ProgressFacts<T>(s0: State<T>, s: State<T>, m: nat, injected: nat, grew: bool)
    requires Progress(s0, s, m, injected, grew)
    ensures |s.blocks| == |s0.blocks| + m + injected && Gathered(s0, s) && s.slots == s0.slots + injected && AtTail(s)
    ensures s.size == s0.size && s.published == |s0.blocks| && s.items == s0.items && s0.blocks <= s.blocks
    ensures injected == 0 && !grew ==> Taking(s0, s, m)
    ensures injected == 0 && m == 0 ==> Unchanged(s0, s)
  {
  }

  // ---------- resetting and writing ----------

  /** The counters of the blocks with these numbers are reset. */
  ghost predicate ResetFrom<T>(s: State<T>, lo: nat, hi: nat)
    requires hi <= |s.blocks|
  {
    forall k: nat :: lo <= k < hi ==> s.blocks[k] in s.counter && s.counter[s.blocks[k]] == 0
  }

  lemma ResetFromStays<T>(s0: State<T>, s: State<T>, s': State<T>, hi: nat)
    requires hi <= |s.blocks| && Gathered(s0, s) && ResetFrom(s, s.published, hi) && ByConsumers(s, s')
    ensures hi <= |s'.blocks| && Gathered(s0, s') && ResetFrom(s', s'.published, hi) && s'.blocks == s.blocks
    ensures s'.tailBlock == s.tailBlock && s'.next == s.next
  {
  }

  lemma ResetNone<T>(s: State<T>)
    requires s.published <= |s.blocks|
    ensures ResetFrom(s, s.published, s.published)
  {
  }

  lemma ResetFromOne<T>(s0: State<T>, s: State<T>, k: nat)
    requires k < |s.blocks| && Gathered(s0, s) && ResetFrom(s, s.published, k)
    ensures Gathered(s0, Reset(s, k)) && ResetFrom(Reset(s, k), s.published, k + 1)
    ensures Reset(s, k).blocks == s.blocks && Reset(s, k).published == s.published
  {
  }

  /** Along the chain: the block after that of number k, and whether it is the last. */
  lemma ChainStep<T>(s: State<T>, k: nat)
    requires Inv(s) && RingLinked(s) && Oldest(s) <= k < |s.blocks|
    ensures s.blocks[k] == s.blocks[|s.blocks| - 1] <==> k == |s.blocks| - 1
    ensures k < |s.blocks| - 1 ==> s.blocks[k] in s.next && s.next[s.blocks[k]] == s.blocks[k + 1]
  {
    hide IndexOk, CountsOk, FlightsOk, CellsOk;
    assert k < |s.blocks| - 1 ==> NextLinked(s, k);
  }

  lemma GatheredBegins<T>(s0: State<T>, s: State<T>)
    requires Inv(s) && Gathered(s0, s) && ResetFrom(s, s.published, |s.blocks|) && s.published < |s.blocks|
    requires |s.shift| == |s.tables| == |s.fronts| && s.tables != [] && |s.tables[Last(s)]| > 0
    requires FrontOk(s.tables[Last(s)], StoreFront(s).fronts[Last(s)])
    ensures Began(s0, StoreFront(s)) && AtTail(StoreFront(s))
  {
    NewestOfInv(s);
  }

  /** All blocks are ready, and the first j elements of xs are in their cells. */
  ghost predicate Writing<T>(s0: State<T>, s: State<T>, xs: seq<T>, j: nat)
    requires s.size > 0 && j <= |xs|
  {
    Began(s0, s) && |s.blocks| == Blocks(|s.items| + |xs|, s.size) && Constructed(s, xs, j)
  }

  lemma WritingStays<T>(s0: State<T>, s: State<T>, s': State<T>, xs: seq<T>, j: nat)
    requires s.size > 0 && j <= |xs| && Writing(s0, s, xs, j) && ByConsumers(s, s')
    ensures s'.size == s.size && Writing(s0, s', xs, j) && s'.tailBlock == s.tailBlock && s'.items == s.items
    ensures s'.blocks == s.blocks && s'.next == s.next
  {
    hide Began, Constructed;
    ConstructedStays(s0, s, s', xs, j);
  }

  lemma WritingOneMore<T>(s0: State<T>, s: State<T>, xs: seq<T>, j: nat, q: nat)
    requires Inv(s) && j < |xs| && Writing(s0, s, xs, j) && Number(|s.items| + j, s.size) == q
    ensures Oldest(s) <= q < |s.blocks|
    ensures Writing(s0, Construct(s, s.blocks[q], Offset(|s.items| + j, s.size), xs[j]), xs, j + 1)
  {
    hide Inv, Began, Constructed, Base, Number, Blocks, Offset;
    SizeOfInv(s);
    BlocksBounds(|s.items| + |xs|, s.size);
    Writable(s0, s, |s.items| + j);
    ConstructedOneMore(s0, s, xs, j);
  }

  /** The block written last is in the ring. */
  lemma WrittenInRing<T>(s0: State<T>, s: State<T>, xs: seq<T>, j: nat, q: nat)
    requires s.size > 0 && 0 < j <= |xs| && Writing(s0, s, xs, j) && Number(|s.items| + j - 1, s.size) == q
    ensures Oldest(s) <= q < |s.blocks|
  {
    hide Began, Number, Base, Blocks;
    assert Written(s, xs, |s.items| + j - 1);
  }

  lemma WritingMoves<T>(s0: State<T>, s: State<T>, xs: seq<T>, j: nat, tailBlock: Option<Block>)
    requires s.size > 0 && j <= |xs| && Writing(s0, s, xs, j)
    ensures Writing(s0, s.(tailBlock := tailBlock), xs, j)
  {
    hide Base, Number, Blocks, Offset;
    var s' := s.(tailBlock := tailBlock);
    forall i: nat | |s.items| <= i < |s.items| + j ensures Written(s', xs, i) {
      assert Written(s, xs, i);
    }
  }

  lemma WritingFacts<T>(s0: State<T>, s: State<T>, xs: seq<T>, j: nat)
    requires s.size > 0 && j <= |xs| && Writing(s0, s, xs, j)
    ensures |s.blocks| == Blocks(|s.items| + |xs|, s.size) && Began(s0, s) && Constructed(s, xs, j)
    ensures s.size == s0.size && s.items == s0.items
  {
  }

  /** Moving the tail block changes nothing that consumers see. */
  lemma TailDoesNotMatter<T>(s: State<T>, tailBlock: Option<Block>)
    requires Inv(s)
    ensures Inv(s.(tailBlock := tailBlock))
    ensures RingLinked(s) ==> RingLinked(s.(tailBlock := tailBlock))
    ensures forall free, created :: OwnsRing(s, free, created) ==> OwnsRing(s.(tailBlock := tailBlock), free, created)
  {
    hide IndexOk;
    var s' := s.(tailBlock := tailBlock);
    IndexFramed(s, s');
    forall k: nat | k < s'.published ensures CountOk(s', k) {
      assert CountOk(s, k);
    }
    forall t | 0 <= t < |s'.flights| ensures FlightOk(s', s'.flights[t]) {
      assert FlightOk(s, s.flights[t]);
    }
    forall i: nat | i < |s'.items| ensures ItemOk(s', i) {
      assert ItemOk(s, i);
    }
    if RingLinked(s) {
      assert s.blocks != [] ==> LinksTo(s', |s.blocks| - 1, s.blocks[Oldest(s)]);
      forall k: nat | Oldest(s') <= k < |s'.blocks| - 1 ensures NextLinked(s', k) {
        assert NextLinked(s, k);
      }
    }
  }

  /** Where the writing of a bulk enqueue starts: at the old tail block, or at the first new block. */
  lemma WritingStarts<T>(s0: State<T>, s: State<T>, xs: seq<T>, first: Option<Block>)
    requires Inv(s0) && Settled(s0) && s.size > 0 && Began(s0, s) && AtTail(s) && |s.blocks| == Blocks(|s.items| + |xs|, s.size)
    requires first == if |s.blocks| == |s0.blocks| then None else Some(s.blocks[|s0.blocks|])
    ensures var begin := if |s.items| % s.size == 0 && first.Some? then first else s0.tailBlock;
            var s' := s.(tailBlock := begin);
            && Writing(s0, s', xs, 0)
            && if xs == [] then begin == s.tailBlock
               else Number(|s.items|, s.size) < |s.blocks| && begin == Some(s.blocks[Number(|s.items|, s.size)])
  {
    hide Inv, Base, Number, Blocks, Offset;
    SettledFacts(s0);
    var start := |s.items|;
    BlocksOfNumber(start, Number(start, s.size), s.size);
    AlignedAtBase(start, s.size);
    if xs != [] {
      BlocksMonotone(start + 1, start + |xs|, s.size);
      BlocksAfterOne(start, s.size);
    }
    NothingConstructed(s, xs);
  }

  lemma ProgressIsAtLeast<T>(s0: State<T>, s: State<T>, m: nat)
    requires Inv(s0) && Settled(s0) && Inv(s) && Taking(s0, s, m)
    ensures s0.published > 0 ==> s0.slots > 0
    ensures m == 0 && s.kept == s0.kept ==> Progress(s0, s, m, 0, false)
    ensures m > 0 ==> Progress(s0, s, m, 0, false)
  {
    TakingGathers(s0, s, m);
    SettledFacts(s0);
    TakingKeepsTail(s0, s, m);
  }

  lemma BeganFrom<T>(s0: State<T>, s: State<T>)
    requires Began(s, s) && Unchanged(s0, s)
    ensures Began(s0, s)
  {
  }

  lemma RestoredOwns<T>(s0: State<T>, s: State<T>, m: nat, free: set<Block>, created: nat)
    requires Taking(s0, s, m) && OwnsRing(s, free, created) && s0.slots <= |s0.blocks|
    ensures OwnsRing(Restored(s0, s), free, created)
  {
    var s' := Restored(s0, s);
    forall k: nat | Oldest(s') <= k < |s'.blocks| ensures s'.blocks[k] < created && s'.blocks[k] !in free {
      assert s'.blocks[k] == s.blocks[k];
      if k < Oldest(s) {
        assert Reused(s, k + s.slots);
      }
    }
  }

  /** What a failed bulk enqueue leaves. */
  ghost function Undone<T>(s0: State<T>, s: State<T>, injected: nat, grew: bool): State<T> {
    if injected == 0 && !grew then Restored(s0, s) else s
  }

  /** The values that a failed bulk enqueue sets its fields to are right, if it is undone. */
  ghost predicate SetBack<T>(s: State<T>, front: nat, slots: nat, tailBlock: Option<Block>) {
    && s.slots == slots && s.tailBlock == tailBlock
    && (s.tables != [] && |s.shift| == |s.tables| && |s.tables[Last(s)]| > 0 ==>
          front == Slot(|s.tables[Last(s)]|, s.shift[Last(s)], |s.blocks|))
  }

  ghost predicate SavedFront<T>(s: State<T>, front: nat) {
    s.tables != [] && |s.shift| == |s.tables| && |s.tables[Last(s)]| > 0 ==>
      front == Slot(|s.tables[Last(s)]|, s.shift[Last(s)], |s.blocks|)
  }

  /** Before a new block is put in the ring, and unless both blocks were taken and the index grew, all is set back. */
  lemma UndoTaken<T>(s0: State<T>, s: State<T>, m: nat, free: set<Block>, created: nat, startFront: nat, first: Option<Block>)
    requires Inv(s0) && Settled(s0) && Inv(s) && OwnsRing(s, free, created) && Taking(s0, s, m)
    requires SavedFront(s0, startFront) && (|s.blocks| == |s0.blocks| ==> first == None)
    ensures var s' := Restored(s0, s);
            && Inv(s') && Settled(s') && OwnsRing(s', free, created) && SetBackTo(s0, s')
            && SetBack(s', startFront, s0.slots, if s0.tailBlock.None? then first else s0.tailBlock)
  {
    hide Inv, HeaderOk, Slot;
    RestoredKeepsInv(s0, s, m);
    SettledFacts(s0);
    RestoredOwns(s0, s, m, free, created);
  }

  /**
   The fields no longer describe the sub-queue: fewer slots are recorded than the ring has blocks, or the next block
   number's entry would not go to its slot.
   */
  ghost predicate Astray<T>(s0: State<T>, s: State<T>, slotsUsed: nat, indexFront: nat) {
    || slotsUsed < s.slots
    || (s.tables != [] && |s.shift| == |s.tables| && |s.tables[Last(s)]| > 0
        && indexFront != Slot(|s.tables[Last(s)]|, s.shift[Last(s)], |s0.blocks|))
  }

  /** So it is whenever the failure comes after a new block, or after both blocks taken and a larger index. */
  lemma UndoAstray<T>(s0: State<T>, s: State<T>, m: nat, injected: nat, grew: bool, startFront: nat)
    requires Progress(s0, s, m, injected, grew) && (injected > 0 || (grew && m > 0))
    ensures Astray(s0, s, s0.slots, if grew then s0.slots else startFront)
  {
    hide Taking, Inv;
    if injected == 0 {
      GatheredFacts(s0, s);
      SmallRemainder(s.slots - m, |s.tables[Last(s)]|);
    }
  }

  ghost predicate SetBackTo<T>(s0: State<T>, s: State<T>) {
    s.items == s0.items && s.blocks == s0.blocks && s.slots == s0.slots && s.next == s0.next && s.tailBlock == s0.tailBlock
  }

  lemma UndoGrown<T>(s0: State<T>, s: State<T>, first: Option<Block>)
    requires Inv(s0) && Settled(s0) && Inv(s) && Progress(s0, s, 0, 0, true) && first == None
    ensures Settled(s) && SetBackTo(s0, s)
    ensures SetBack(s, s0.slots, s0.slots, if s0.tailBlock.None? then first else s0.tailBlock)
  {
    hide Inv, HeaderOk, Taking;
    SizeOfInv(s0);
    UnchangedSettles(s0, s);
    SettledFacts(s0);
    FrontAfterCopy(s, |s.tables[Last(s)]|);
  }

  lemma PublishedSettles<T>(s: State<T>)
    requires s.size > 0 && s.published == |s.blocks| == Blocks(|s.items|, s.size) && RingLinked(s) && AtTail(s)
    ensures Settled(s)
  {
  }

  lemma SettledLinks<T>(s: State<T>)
    requires s.size > 0 && Settled(s)
    ensures RingLinked(s) && AtTail(s)
  {
  }

  lemma FrontEntryFacts<T>(s: State<T>)
    requires HasFrontEntry(s)
    ensures s.blocks != [] ==> s.tables != [] && |s.fronts| == |s.tables| && FrontOk(s.tables[Last(s)], s.fronts[Last(s)])
  {
  }

  // ---------- the beginning ----------

  function Initial<T>(size: nat, consumers: nat): State<T> {
    State(size, [], [], [], [], 0, map[], map[], map[], None, 0, seq(consumers, _ => Idle), [], [], 0, [], 0)
  }

  lemma InitialIsSettled<T>(size: nat, consumers: nat)
    requires size > 0
    ensures Inv(Initial<T>(size, consumers)) && Settled(Initial<T>(size, consumers))
  {
  }
}
