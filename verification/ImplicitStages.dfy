/**
 The stages of an enqueue on an implicit sub-queue, as relations between states: settled,
 an entry claimed, blocks put in the index and elements written that are not published
 yet. Each says what the consumers' steps in between leave as it is.
 */
module ImplicitStages {
  import opened BlockNumbers
  import opened BlockIndex
  import opened ImplicitState
  import opened ImplicitUpdates
  import opened Remainders
  import opened Circular
  import C = ImplicitConsumer

  /** No enqueue is running: what is in the index is published, and nothing else is owned. */
  ghost predicate Settled<T>(s: State<T>)
    requires s.size > 0
  {
    && s.added == map[] && s.index.pending == None && s.index.count == |s.blocks| == Blocks(|s.items|, s.size)
    && (forall b :: b in s.home ==> s.home[b].Some?)
    && s.tailBlock == (if s.blocks == [] then None else Some(s.blocks[|s.blocks| - 1]))
  }

  /** A settled state says all there is about ownership and the index: the blocks, less those the consumers are done with. */
  lemma SettledIsDetermined<T>(s: State<T>)
    requires Inv(s) && Settled(s)
    ensures s.index.live == map k: nat | k < |s.blocks| && k !in s.nulled :: s.blocks[k]
    ensures forall b :: b in s.home <==> exists k: nat :: k < |s.blocks| && k !in s.released && s.blocks[k] == b
  {
    forall b | b in s.home ensures exists k: nat :: k < |s.blocks| && k !in s.released && s.blocks[k] == b {
      assert s.home[b].Some?;
    }
  }

  /** The cell of element i, when its block is still owned. */
  ghost predicate Stored<T>(s: State<T>, i: nat)
    requires s.size > 0
  {
    i < |s.items| && Number(i, s.size) < |s.blocks| && (s.blocks[Number(i, s.size)], Offset(i, s.size)) in s.cells
  }

  /**
   Two settled sub-queues with the same elements, one of them filled by bulk and the other element by element, say, differ
   only in which blocks they have got and in what consumers have done.
   */
  lemma SameElementsSameSubQueue<T>(s: State<T>, r: State<T>)
    requires Inv(s) && Settled(s) && Inv(r) && Settled(r) && s.size == r.size && s.items == r.items
    ensures |s.blocks| == |r.blocks| && s.index.count == r.index.count && (s.tailBlock.None? <==> r.tailBlock.None?)
    ensures forall k: nat :: k < |s.blocks| && k !in s.nulled && k !in r.nulled ==> (k in s.index.live && k in r.index.live)
    ensures forall i: nat :: i < |s.items| && Number(i, s.size) !in s.released && Number(i, s.size) !in r.released ==>
              Stored(s, i) && Stored(r, i)
              && s.cells[(s.blocks[Number(i, s.size)], Offset(i, s.size))] == r.cells[(r.blocks[Number(i, s.size)], Offset(i, s.size))]
  {
    SettledIsDetermined(s);
    SettledIsDetermined(r);
    forall i: nat | i < |s.items| && Number(i, s.size) !in s.released && Number(i, s.size) !in r.released
      ensures Stored(s, i) && Stored(r, i)
      ensures s.cells[(s.blocks[Number(i, s.size)], Offset(i, s.size))] == r.cells[(r.blocks[Number(i, s.size)], Offset(i, s.size))]
    {
      NumberBelow(i, |s.blocks|, s.size);
      CellHoldsItem(s, i);
      CellHoldsItem(r, i);
    }
  }

  // ---------- claiming an entry ----------

  /** How many slots the newest header has. */
  function Capacity(v: View): nat {
    if v.tables == [] then 0 else |v.tables[Newest(v)]|
  }

  lemma AfterInsert<T>(s: State<T>)
    requires Inv(s) && s.index.tables != [] && HasRoom(s.index) && Steady(s)
    ensures ClaimedEntry(Insert(s), s.index.count, NextEntry(s.index)) && C.Kept(s, Insert(s))
    ensures Capacity(Insert(s).index) == Capacity(s.index)
  {
    StoreKeyKeepsOk(s.index);
  }

  lemma AfterGrow<T>(s: State<T>, junk: seq<Option<Block>>)
    requires Inv(s) && Steady(s) && |junk| == FreshEntries(s.index) && s.index.tables != [] && Inv(Enlarge(s, junk))
    ensures var s' := Enlarge(s, junk);
            HasRoom(s'.index) && Steady(s') && Capacity(s'.index) == 2 * Capacity(s.index) && C.Kept(s, s')
  {
    GrownHasRoom(s.index, junk, |s.blocks|);
  }

  /** Consumers only make room. */
  lemma RoomStays<T>(s: State<T>, s': State<T>)
    requires Inv(s) && Inv(s') && C.ByConsumers(s, s') && Steady(s) && s.index.tables != [] && HasRoom(s.index)
    ensures s'.index.tables != [] && HasRoom(s'.index) && Steady(s')
  {
    hide Ok;
    assert Shape(s.index) && Shape(s'.index) by { ShapeOfInv(s); ShapeOfInv(s'); }
  }

  lemma ShapeOfInv<T>(s: State<T>)
    requires Inv(s)
    ensures Shape(s.index)
  {
  }

  lemma FullIsHigh<T>(s: State<T>)
    requires Inv(s) && Steady(s) && s.index.tables != [] && Shape(s.index) && !HasRoom(s.index)
    ensures s.index.count == s.index.high
  {
    NoRoomMeansNoStaleKeys(s.index);
  }

  lemma SteadyStays<T>(s: State<T>, s': State<T>)
    requires Inv(s) && Inv(s') && C.ByConsumers(s, s') && Steady(s)
    ensures Steady(s')
  {
  }

  lemma FitsLater(head: nat, head': nat, top: nat, limit: Option<nat>, w: nat)
    requires w >= 1 && Fits(head, top, limit, w) && head <= head'
    ensures Fits(head', top, limit, w)
  {
  }

  // ---------- a new block ----------

  /** The blocks below number k that are not published are in the index, and no others. */
  ghost predicate InOrder<T>(s: State<T>, k: nat) {
    |s.blocks| <= k && forall m :: m in s.added <==> |s.blocks| <= m < k
  }

  /** The bases of rewound blocks are still less than a turn ahead of the published ones. */
  ghost predicate HighOk<T>(s: State<T>) {
    s.index.high <= |s.blocks| + Capacity(s.index)
  }

  /** From s to s', block b has been put in the index as number k; consumers have taken steps. */
  ghost predicate Added<T>(s: State<T>, s': State<T>, k: nat, b: Block) {
    && s' == s.(index := s'.index, counter := s'.counter, head := s'.head, flights := s'.flights, done := s'.done,
                nulled := s'.nulled, released := s'.released, home := s'.home, cells := s'.cells, added := s.added[k := b])
    && s.head <= s'.head && |s.flights| == |s'.flights| && s.nulled <= s'.nulled && s.released <= s'.released
    && s'.index.count == k + 1
    && b in s'.home && s'.home[b] == Some(k) && b in s'.counter && s'.counter[b] == 0
    && (b in s.home ==> s.home[b].Some? && s.home[b].value < |s.blocks|)
    && (forall c :: c in s'.home && c != b ==> c in s.home && s'.home[c] == s.home[c])
    && (forall c :: c in s.home && c !in s'.home ==> s.home[c].Some? && s.home[c].value < |s.blocks|)
    && (forall c :: c in s'.home && c != b && c in s.counter && (s.home[c].None? || s.home[c].value >= |s.blocks|) ==>
          c in s'.counter && s'.counter[c] == s.counter[c])
  }

  lemma HighAfterClaim<T>(s: State<T>, k: nat, e: nat)
    requires Inv(s) && ClaimedEntry(s, k, e) && InOrder(s, k)
    ensures k + 1 <= |s.blocks| + Capacity(s.index)
  {
    assert k > |s.blocks| ==> |s.blocks| in s.added;
  }

  lemma ByConsumersKeep<T>(s: State<T>, s': State<T>)
    requires C.ByConsumers(s, s')
    ensures C.Kept(s, s')
  {
    hide C.Kept, C.IndexKept;
  }

  lemma ClaimStays<T>(s: State<T>, s': State<T>, k: nat, e: nat)
    requires C.ByConsumers(s, s') && ClaimedEntry(s, k, e) && InOrder(s, k) && HighOk(s)
    ensures ClaimedEntry(s', k, e) && InOrder(s', k) && HighOk(s')
  {
  }

  lemma UnwindKept<T>(s: State<T>)
    requires Shape(s.index) && s.index.tables != [] && s.index.count > 0
    ensures C.Kept(s, Unwind(s)) && Capacity(Unwind(s).index) == Capacity(s.index)
  {
  }

  lemma DisclaimKept<T>(s: State<T>, e: nat)
    requires e < |s.index.key| == |s.index.value| && s.index.key[e].Some?
    ensures C.Kept(s, Disclaim(s, e))
  {
  }

  lemma AcquiredStays<T>(s: State<T>, b: Block, s': State<T>)
    requires C.ByConsumers(Acquire(s, b), s')
    ensures b in s'.home && s'.home[b] == None && b in s'.counter && s'.counter[b] == 0
  {
    assert b in Acquire(s, b).home;
  }

  lemma AddedChain<T>(s0: State<T>, s1: State<T>, b: Block, s3: State<T>, e: nat, k: nat)
    requires C.Kept(s0, s1) && b !in s1.home && C.Kept(Acquire(s1, b), s3) && e < |s3.index.value|
    requires b in s3.home && b in s3.counter && s3.counter[b] == 0 && s3.index.count == k + 1
    ensures Added(s0, Put(s3, e, k, b), k, b)
  {
  }

  lemma AddedAfterKept<T>(s0: State<T>, s1: State<T>, s2: State<T>, k: nat, b: Block)
    requires C.Kept(s0, s1) && Added(s1, s2, k, b)
    ensures Added(s0, s2, k, b)
  {
  }

  /** Consumers only move on. */
  ghost predicate Later<T>(s: State<T>, s': State<T>) {
    s.head <= s'.head && s.nulled <= s'.nulled && s.released <= s'.released
  }

  // ---------- blocks in the index, elements not published ----------

  ghost predicate NoneHeld(home: map<Block, Option<nat>>) {
    forall b :: b in home ==> home[b].Some?
  }

  /** Nothing of an added block has been dequeued. */
  ghost predicate Untouched(added: map<nat, Block>, counter: map<Block, nat>) {
    forall k :: k in added ==> added[k] in counter && counter[added[k]] == 0
  }

  /** Since s0, which was settled, blocks up to number n have been put in the index; consumers have taken steps. */
  ghost predicate Loaded<T>(s0: State<T>, s: State<T>, n: nat) {
    && s.size == s0.size && s.items == s0.items && s.blocks == s0.blocks
    && s0.head <= s.head && s0.nulled <= s.nulled && s0.released <= s.released && |s.flights| == |s0.flights|
    && s.index.count == n && s.index.pending == None && InOrder(s, n)
    && NoneHeld(s.home) && Untouched(s.added, s.counter)
  }

  lemma LoadedStart<T>(s: State<T>)
    requires Inv(s) && Settled(s)
    ensures Loaded(s, s, |s.blocks|) && Steady(s) && HighOk(s) && InOrder(s, |s.blocks|)
    ensures |s.blocks| == s.index.count == Blocks(|s.items|, s.size)
  {
  }

  lemma SizeOfInv<T>(s: State<T>)
    requires Inv(s)
    ensures s.size > 0
  {
  }

  lemma HomeOfInv<T>(s: State<T>)
    requires Inv(s)
    ensures HomeOk(s.blocks, s.released, s.added, s.home)
  {
  }

  lemma LoadedStays<T>(s0: State<T>, s: State<T>, s': State<T>)
    requires Inv(s) && C.ByConsumers(s, s') && Loaded(s0, s, s.index.count) && Inv(s')
    ensures Loaded(s0, s', s.index.count)
    ensures s'.added == s.added && s'.cells == s.cells && s'.next == s.next && s'.tailBlock == s.tailBlock
  {
    hide Inv;
    HomeOfInv(s);
  }

  lemma LoadedKept<T>(s0: State<T>, s: State<T>, s': State<T>)
    requires Inv(s) && Inv(s') && C.Kept(s, s') && Loaded(s0, s, s.index.count)
    requires s'.index.count == s.index.count && s'.index.pending == None
    ensures Loaded(s0, s', s.index.count)
  {
    hide Inv;
    HomeOfInv(s);
  }

  lemma LoadedAdds<T>(s0: State<T>, s: State<T>, s': State<T>, k: nat, b: Block)
    requires Inv(s) && Inv(s') && Loaded(s0, s, k) && Added(s, s', k, b) && s'.index.pending == None
    ensures Loaded(s0, s', k + 1) && k in s'.added && s'.added[k] == b && s'.index.count == k + 1
    ensures s'.added == s.added[k := b] && s'.next == s.next && s'.tailBlock == s.tailBlock
  {
    hide Inv;
    HomeOfInv(s);
  }

  lemma EnlargeSettles<T>(s: State<T>, junk: seq<Option<Block>>)
    requires s.size > 0 && Shape(s.index) && Settled(s)
    ensures var s' := Enlarge(s, junk);
            s'.size == s.size && Settled(s') && s'.items == s.items && s'.head == s.head
            && s'.index.tables == s.index.tables + [GrownTable(s.index)]
  {
    hide Shape, GrownTable;
  }

  lemma SettledAfterFailure<T>(s: State<T>, s': State<T>)
    requires Inv(s) && Inv(s') && Settled(s) && C.Kept(s, s') && s'.index.count == s.index.count && s'.index.pending == None
    ensures Settled(s') && s'.items == s.items && Later(s, s')
  {
    hide Inv;
    HomeOfInv(s);
  }

  /** The block of number k, if there is one. */
  ghost function Nth<T>(s: State<T>, k: nat): Option<Block> {
    if k < |s.blocks| then Some(s.blocks[k]) else if k in s.added then Some(s.added[k]) else None
  }

  /** The tail block is that of number n - 1. */
  ghost predicate TailIs<T>(s: State<T>, n: nat) {
    s.tailBlock == if n == 0 then None else Nth(s, n - 1)
  }

  lemma TailOfSettled<T>(s: State<T>)
    requires s.size > 0 && Settled(s)
    ensures TailIs(s, Blocks(|s.items|, s.size))
  {
  }

  lemma TailIsSet<T>(s0: State<T>, s: State<T>, k: nat, b: Block)
    requires Loaded(s0, s, k + 1) && |s0.blocks| <= k && k in s.added && s.added[k] == b
    ensures var s' := s.(tailBlock := Some(b));
            Loaded(s0, s', k + 1) && TailIs(s', k + 1) && s'.items == s0.items && Later(s0, s')
  {
  }

  /** The block of an element that is not published yet is owned. */
  lemma Writable<T>(s0: State<T>, s: State<T>, n: nat, i: nat)
    requires Inv(s) && Loaded(s0, s, n) && |s.items| <= i < Base(n, s.size)
    ensures HasBlock(s, Number(i, s.size)) && Number(i, s.size) < n
  {
    hide Ok;
    var k := Number(i, s.size);
    NumberBelow(i, n, s.size);
    NumberBounds(i, s.size);
    BaseStep(k, s.size);
    if k < |s.blocks| {
      TailBlockIsOwned(s, k);
    }
  }

  lemma BlockForIsInjective<T>(s: State<T>, k: nat, m: nat)
    requires Inv(s) && HasBlock(s, k) && HasBlock(s, m) && BlockFor(s, k) == BlockFor(s, m)
    ensures k == m
  {
    hide Ok;
  }

  /** Different elements have different cells. */
  lemma OtherCell<T>(s: State<T>, m: nat, i: nat)
    requires Inv(s) && m < i && HasBlock(s, Number(m, s.size)) && HasBlock(s, Number(i, s.size))
    ensures (BlockFor(s, Number(m, s.size)), Offset(m, s.size)) != (BlockFor(s, Number(i, s.size)), Offset(i, s.size))
  {
    if BlockFor(s, Number(m, s.size)) == BlockFor(s, Number(i, s.size)) {
      BlockForIsInjective(s, Number(m, s.size), Number(i, s.size));
    }
    hide Inv, HasBlock, BlockFor;
    NumberBounds(m, s.size);
    NumberBounds(i, s.size);
  }

  /** Writing element i leaves an element before it in its cell. */
  lemma WrittenStays<T>(s: State<T>, xs: seq<T>, m: nat, i: nat, x: T)
    requires Inv(s) && |s.items| <= m < i && m < |s.items| + |xs| && Written(s, xs, m) && HasBlock(s, Number(i, s.size))
    ensures Written(Construct(s, BlockFor(s, Number(i, s.size)), Offset(i, s.size), x), xs, m)
  {
    hide Inv, Number, Base, Offset;
    OtherCell(s, m, i);
  }

  /** One more element is in its cell, and the ones before it still are. */
  lemma ConstructedOneMore<T>(s: State<T>, xs: seq<T>, j: nat)
    requires Inv(s) && j < |xs| && Constructed(s, xs, j) && HasBlock(s, Number(|s.items| + j, s.size))
    ensures var i := |s.items| + j;
            Constructed(Construct(s, BlockFor(s, Number(i, s.size)), Offset(i, s.size), xs[j]), xs, j + 1)
  {
    hide Inv, Number, Base, Offset, Written;
    SizeOfInv(s);
    var i := |s.items| + j;
    var s' := Construct(s, BlockFor(s, Number(i, s.size)), Offset(i, s.size), xs[j]);
    WrittenNow(s, xs, i);
    forall m: nat | |s.items| <= m < |s.items| + j + 1 ensures Written(s', xs, m) {
      if m < i {
        WrittenStays(s, xs, m, i, xs[j]);
      }
    }
  }

  lemma WrittenNow<T>(s: State<T>, xs: seq<T>, i: nat)
    requires s.size > 0 && |s.items| <= i < |s.items| + |xs| && HasBlock(s, Number(i, s.size))
    ensures Written(Construct(s, BlockFor(s, Number(i, s.size)), Offset(i, s.size), xs[i - |s.items|]), xs, i)
  {
    hide Number, Base, Offset;
  }

  lemma ConstructedStays<T>(s0: State<T>, s: State<T>, s': State<T>, n: nat, xs: seq<T>, j: nat)
    requires Inv(s') && Loaded(s0, s', n) && C.ByConsumers(s, s') && s.size > 0 && j <= |xs| && Constructed(s, xs, j)
    requires |s.items| + j <= Base(n, s.size)
    ensures Constructed(s', xs, j)
  {
    hide Ok;
    forall i: nat | |s.items| <= i < |s.items| + j ensures Written(s', xs, i) {
      Writable(s0, s', n, i);
      assert Written(s, xs, i);
    }
  }

  lemma ConstructedNone<T>(s: State<T>, xs: seq<T>)
    requires s.size > 0
    ensures Constructed(s, xs, 0)
  {
  }

  lemma PublishSettles<T>(s0: State<T>, s: State<T>, n: nat, xs: seq<T>)
    requires s.size > 0 && Loaded(s0, s, n) && n == Blocks(|s.items| + |xs|, s.size) && TailIs(s, n)
    ensures Settled(Publish(s, xs))
  {
  }

  // ---------- copying a header ----------

  /** One turn from the tail ends at the tail, and not before. */
  lemma OnceAround(tail: nat, n: nat, c: nat)
    requires tail < c && 1 <= n <= c
    ensures (tail + n) % c == tail <==> n == c
  {
    RemainderShift(tail, c, 1);
    SmallRemainder(tail, c);
    if (tail + n) % c == tail && n < c {
      NearAndSameSlot(tail + n, tail, 0, c);
    }
  }

  /** The loop of new_block_index: the entry pointers from the slot after the tail, once around. */
  method CopyRotated(prev: seq<nat>, prevTail: nat) returns (index: seq<nat>)
    requires prevTail < |prev|
    ensures |index| == |prev| && forall i :: 0 <= i < |prev| ==> index[i] == prev[(prevTail + 1 + i) % |prev|]
  {
    var prevPos := (prevTail + 1) % |prev|;
    index := [prev[prevPos]];
    OnceAround(prevTail, 1, |prev|);
    while prevPos != prevTail
      invariant 1 <= |index| <= |prev| && prevPos == (prevTail + |index|) % |prev|
      invariant prevPos == prevTail <==> |index| == |prev|
      invariant forall i :: 0 <= i < |index| ==> index[i] == prev[(prevTail + 1 + i) % |prev|]
      decreases |prev| - |index|
    {
      RemainderLeft(prevTail + |index|, 1, |prev|);
      OnceAround(prevTail, |index| + 1, |prev|);
      prevPos := (prevPos + 1) % |prev|;
      index := index + [prev[prevPos]];
    }
  }

  lemma EnlargeFields<T>(s: State<T>, junk: seq<Option<Block>>)
    requires Shape(s.index) && |junk| == FreshEntries(s.index)
    ensures var s' := Enlarge(s, junk);
            && s' == s.(index := s'.index) && s'.index.initial == s.index.initial
            && s'.index.key == s.index.key + seq(|junk|, _ => None) && s'.index.value == s.index.value + junk
            && s'.index.tables == s.index.tables + [GrownTable(s.index)]
            && s'.index.tails == s.index.tails + [|junk| - 1]
  {
  }

  /** The next header's capacity, and the one after that. */
  lemma DoubledCapacity(v: View)
    requires Shape(v)
    ensures Pow2(v.initial + |v.tables| + 1) == 2 * Pow2(v.initial + |v.tables|)
    ensures v.tables != [] ==> Pow2(v.initial + |v.tables|) == 2 * |v.tables[Newest(v)]|
    ensures FreshEntries(v) == if v.tables == [] then Pow2(v.initial + |v.tables|) else |v.tables[Newest(v)]|
  {
    assert v.tables != [] ==> |v.tables[Newest(v)]| == Pow2(v.initial + Newest(v));
  }

  /** The new tail slot: the last of the copied entries, or the last slot if there are none. */
  lemma NewTail(prevCapacity: nat, capacity: nat)
    requires capacity > 0 && (prevCapacity == 0 || capacity == 2 * prevCapacity)
    ensures (prevCapacity - 1) % capacity == (if prevCapacity == 0 then capacity else prevCapacity) - 1
  {
    if prevCapacity == 0 {
      RemainderUnique(-1, capacity, -1, capacity - 1);
    } else {
      SmallRemainder(prevCapacity - 1, capacity);
    }
  }

  // ---------- capacity ----------

  /**
   The program's test on words, `limit` being MAX_SUBQUEUE_SIZE rounded up to blocks or none:
   there is no room for a block at index `cur`.
   */
  predicate Full(head: nat, cur: nat, size: nat, limit: Option<nat>, w: nat)
    requires w >= 1
  {
    || !CircularLessThan(Wrap(head, w), Wrap(cur + size, w), w)
    || (limit.Some? && (limit.value == 0 || limit.value - size < Wrap(Wrap(cur, w) - Wrap(head, w), w)))
  }

  /** The sub-queue, its tail rounded up to `top`, keeps below half the range and within its limit. */
  predicate Fits(head: nat, top: nat, limit: Option<nat>, w: nat)
    requires w >= 1
  {
    top - head < Pow2(w - 1) && (limit.Some? ==> top == 0 || (0 < limit.value && top - head <= limit.value))
  }

  /** The test on words says exactly whether the sub-queue would still fit with one more block. */
  lemma FullExact(head: nat, cur: nat, size: nat, limit: Option<nat>, w: nat)
    requires w >= 1 && 0 < size < Pow2(w - 1) && head <= cur && cur - head < Pow2(w - 1)
    ensures Full(head, cur, size, limit, w) <==> !Fits(head, cur + size, limit, w)
  {
    CircularLessThanExact(head, cur + size, w);
    WrapDifference(cur, head, w);
    WordIsItself(cur - head, w);
  }

  /** Every block ever created is this sub-queue's, in the pool, or another sub-queue's: exactly one of the three. */
  ghost predicate Conserved(home: set<Block>, free: set<Block>, others: set<Block>, created: nat) {
    && (forall b :: b in home ==> b !in free && b !in others)
    && (forall b :: b in free ==> b !in others)
    && (forall b: Block :: b < created ==> b in home || b in free || b in others)
    && (forall b :: b in home ==> b < created) && (forall b :: b in free ==> b < created)
    && (forall b :: b in others ==> b < created)
  }

  lemma GivenBack(home: set<Block>, free: set<Block>, others: set<Block>, created: nat, b: Block)
    requires Conserved(home, free, others, created) && b in home
    ensures Conserved(home - {b}, free + {b}, others, created)
  {
  }

  /** Entry e has been claimed for block number k, and has no block yet. */
  ghost predicate ClaimedEntry<T>(s: State<T>, k: nat, e: nat) {
    && s.index.tables != [] && |s.index.tables| == |s.index.shift|
    && s.index.count == k + 1 && s.index.pending == Some(k) && s.index.keyed <= k
    && e < |s.index.key| == |s.index.value| && s.index.key[e] == Some(k)
    && SlotHas(s.index.tables[Newest(s.index)], s.index.shift[Newest(s.index)], k, e)
  }

  ghost predicate SlotHas(table: seq<nat>, shift: int, k: nat, e: nat) {
    |table| > 0 && table[Slot(|table|, shift, k)] == e
  }

  /** What a freeing step gives back. */
  function Freed(f: Flight): set<Block> {
    if f.Freeing? then {f.b} else {}
  }

  /** Only a freeing step changes what is owned: the block goes to the pool. */
  lemma StepConserves<T>(s: State<T>, t: nat, n: nat, free: set<Block>, others: set<Block>, created: nat)
    requires Inv(s) && C.CanStep(s, t, n) && Conserved(s.home.Keys, free, others, created)
    ensures Conserved(C.StepOf(s, t, n).home.Keys, free + Freed(s.flights[t]), others, created)
  {
    if s.flights[t].Freeing? {
      FreeingIsOwned(s, t);
      GivenBack(s.home.Keys, free, others, created, s.flights[t].b);
      assert C.StepOf(s, t, n).home.Keys == s.home.Keys - {s.flights[t].b};
    } else {
      assert free + {} == free;
    }
  }

  /** The state after a step of consumer t, which is possible, and what is known of it. */
  lemma StepFacts<T>(s: State<T>, t: nat, n: nat, free: set<Block>, others: set<Block>, created: nat) returns (s': State<T>)
    requires Inv(s) && Conserved(s.home.Keys, free, others, created)
    requires t < |s.flights| && (s.flights[t].Idle? ==> 0 < n && s.head + n <= |s.items|)
    ensures C.CanStep(s, t, n) && s' == C.StepOf(s, t, n)
    ensures Inv(s') && C.ByConsumers(s, s') && Conserved(s'.home.Keys, free + Freed(s.flights[t]), others, created)
  {
    if !s.flights[t].Idle? {
      C.NeverStuck(s, t, n);
    }
    s' := C.StepOf(s, t, n);
    C.StepKeepsInv(s, t, n);
    C.StepIsByConsumers(s, t, n);
    StepConserves(s, t, n, free, others, created);
  }

  lemma {:induction false} Pow2Grows(a: nat, b: nat)
    requires a < b
    ensures Pow2(a) < Pow2(b)
  {
    if a + 1 < b {
      Pow2Grows(a, b - 1);
    }
  }

  // ---------- chains of blocks ----------

  /** The `next` of block number p is the block of number p + 1. */
  ghost predicate Follows<T>(s: State<T>, p: nat) {
    && Nth(s, p).Some? && Nth(s, p + 1).Some?
    && Nth(s, p).value in s.next && s.next[Nth(s, p).value] == Nth(s, p + 1)
  }

  /** The blocks from number lo up to n are linked, and the last one added ends the chain. */
  ghost predicate Chained<T>(s: State<T>, lo: nat, n: nat) {
    && (forall p: nat :: lo <= p && p + 1 < n ==> Follows(s, p))
    && (|s.blocks| < n ==> Nth(s, n - 1).Some? && Nth(s, n - 1).value in s.next && s.next[Nth(s, n - 1).value] == None)
  }

  lemma ChainedStays<T>(s: State<T>, s': State<T>, lo: nat, n: nat)
    requires Chained(s, lo, n) && s'.blocks == s.blocks && s'.added == s.added && s'.next == s.next
    ensures Chained(s', lo, n)
  {
    forall p: nat | lo <= p && p + 1 < n ensures Follows(s', p) {
      assert Follows(s, p);
    }
  }

  ghost predicate Owned<T>(s: State<T>, p: nat) {
    Nth(s, p).Some? && Nth(s, p).value in s.home
  }

  /** The blocks from number lo up to n are owned and different. */
  ghost predicate Distinct<T>(s: State<T>, lo: nat, n: nat) {
    && (forall p: nat :: lo <= p < n ==> Owned(s, p))
    && (forall p, q: nat :: lo <= p < q < n ==> Nth(s, p) != Nth(s, q))
  }

  lemma DistinctOwns<T>(s: State<T>, lo: nat, n: nat)
    requires Distinct(s, lo, n)
    ensures lo < n ==> Owned(s, n - 1)
    ensures lo + 1 < n ==> Owned(s, n - 2)
  {
  }

  lemma DistinctStays<T>(s: State<T>, s': State<T>, lo: nat, n: nat)
    requires Distinct(s, lo, n) && s'.blocks == s.blocks && s'.added == s.added && s'.home == s.home
    ensures Distinct(s', lo, n)
  {
    forall p: nat | lo <= p < n ensures Owned(s', p) {
      assert Owned(s, p);
    }
    forall p, q: nat | lo <= p < q < n ensures Nth(s', p) != Nth(s', q) {
      assert Nth(s, p) != Nth(s, q);
    }
  }

  /** A block is appended to the chain: its `next` is null, and the one before it points to it. */
  lemma ChainGrows<T>(s: State<T>, s': State<T>, lo: nat, n: nat, b: Block)
    requires Chained(s, lo, n) && |s.blocks| <= n && lo <= n && n !in s.added
    requires s'.blocks == s.blocks && s'.added == s.added[n := b]
    requires Distinct(s', lo, n + 1)
    requires s'.next == if lo < n then s.next[b := None][Nth(s, n - 1).value := Some(b)] else s.next[b := None]
    ensures Chained(s', lo, n + 1)
  {
    assert Nth(s', n) == Some(b) && (lo < n ==> Nth(s', n - 1) == Nth(s, n - 1) && Nth(s', n - 1) != Nth(s', n));
    forall p: nat | lo <= p && p + 1 < n + 1 ensures Follows(s', p) {
      assert Owned(s', p) && Owned(s', p + 1) && Owned(s', n);
      assert p + 1 < n ==> Follows(s, p) && Nth(s', p) != Nth(s', n - 1);
    }
  }

  /** Blocks of different numbers are different. */
  lemma NthDiffer<T>(s: State<T>, p: nat, q: nat)
    requires Inv(s) && p != q && HasBlock(s, p) && HasBlock(s, q)
    ensures Nth(s, p) != Nth(s, q)
  {
    hide Ok;
  }

  // ---------- the blocks of a bulk enqueue ----------

  /** The chain of a bulk enqueue starts at the tail block if that has room, else at the first new block. */
  ghost function ChainStart<T>(s: State<T>): nat
    requires s.size > 0
  {
    Number(|s.items|, s.size)
  }

  /** A bulk enqueue since s0 has blocks up to number n in the index, chained to the tail block. */
  ghost predicate BulkLoaded<T>(s0: State<T>, s: State<T>, n: nat)
    requires s.size > 0
  {
    && Loaded(s0, s, n) && HighOk(s) && TailIs(s, n) && Chained(s, ChainStart(s), n)
    && |s.blocks| == Blocks(|s.items|, s.size)
  }

  lemma BulkStart<T>(s: State<T>)
    requires Inv(s) && Settled(s)
    ensures BulkLoaded(s, s, |s.blocks|) && |s.blocks| == s.index.count
  {
    LoadedStart(s);
    BlocksOfNumber(|s.items|, ChainStart(s), s.size);
  }

  /** The blocks of the chain are owned. */
  lemma ChainIsOwned<T>(s0: State<T>, s: State<T>, n: nat, p: nat)
    requires Inv(s) && Loaded(s0, s, n) && |s.blocks| == Blocks(|s.items|, s.size) && ChainStart(s) <= p < n
    ensures HasBlock(s, p)
  {
    hide Ok;
    BlocksOfNumber(|s.items|, ChainStart(s), s.size);
    NumberBounds(|s.items|, s.size);
    BaseStep(ChainStart(s), s.size);
    if p < |s.blocks| {
      TailBlockIsOwned(s, p);
    }
  }

  lemma BulkSteady<T>(s0: State<T>, s: State<T>, n: nat)
    requires Inv(s) && BulkLoaded(s0, s, n)
    ensures Steady(s) && InOrder(s, n) && HighOk(s) && n == s.index.count && |s.blocks| <= n && n !in s.added
    ensures ChainStart(s) <= |s.blocks| <= ChainStart(s) + 1
  {
    BlocksOfNumber(|s.items|, ChainStart(s), s.size);
  }

  lemma BulkKept<T>(s0: State<T>, s: State<T>, s': State<T>, n: nat)
    requires Inv(s) && Inv(s') && BulkLoaded(s0, s, n) && C.Kept(s, s') && HighOk(s')
    requires s'.index.count == n && s'.index.pending == None
    ensures BulkLoaded(s0, s', n) && s'.added == s.added && s'.next == s.next && s'.tailBlock == s.tailBlock
  {
    hide Inv, Follows;
    LoadedKept(s0, s, s');
    ChainedStays(s, s', ChainStart(s), n);
  }

  lemma NthIsOwned<T>(s: State<T>, p: nat)
    requires Inv(s) && HasBlock(s, p)
    ensures Owned(s, p)
  {
    hide Ok;
  }

  lemma ChainIsDistinct<T>(s0: State<T>, s: State<T>, n: nat)
    requires Inv(s) && Loaded(s0, s, n) && |s.blocks| == Blocks(|s.items|, s.size)
    ensures Distinct(s, ChainStart(s), n)
  {
    var lo := ChainStart(s);
    forall p: nat | lo <= p < n ensures HasBlock(s, p) {
      ChainIsOwned(s0, s, n, p);
    }
    forall p: nat | lo <= p < n ensures Owned(s, p) {
      NthIsOwned(s, p);
    }
    forall p, q: nat | lo <= p < q < n ensures Nth(s, p) != Nth(s, q) {
      NthDiffer(s, p, q);
    }
  }

  /** What linking block number n to the chain does. */
  function Link<T>(s: State<T>, prev: Option<Block>, b: Block): State<T> {
    var next := s.next[b := None];
    s.(next := if prev.Some? then next[prev.value := Some(b)] else next, tailBlock := Some(b))
  }

  /** Block number n is in the index: where it is, and what is before it. */
  lemma BeforeLink<T>(s0: State<T>, s: State<T>, s1: State<T>, n: nat, b: Block)
    requires Inv(s) && Inv(s1) && BulkLoaded(s0, s, n) && Added(s, s1, n, b) && s1.index.pending == None
    ensures Loaded(s0, s1, n + 1) && s1.added == s.added[n := b] && s1.next == s.next && s1.tailBlock == s.tailBlock
    ensures n !in s.added && ChainStart(s1) == ChainStart(s) <= n && b in s1.home
    ensures Distinct(s1, ChainStart(s), n + 1)
    ensures ChainStart(s) < n ==> s.tailBlock == Nth(s, n - 1) && s.tailBlock.Some? && s.tailBlock.value in s1.home
  {
    hide Inv, Base, Number, Blocks, Chained, InOrder, Distinct, Added;
    SizeOfInv(s);
    BulkSteady(s0, s, n);
    LoadedAdds(s0, s, s1, n, b);
    ChainIsDistinct(s0, s1, n + 1);
    DistinctOwns(s1, ChainStart(s), n + 1);
  }

  /** Block number n is in the index and is linked to the one before it. */
  lemma BulkLink<T>(s0: State<T>, s: State<T>, s1: State<T>, n: nat, b: Block)
    requires Inv(s) && Inv(s1) && BulkLoaded(s0, s, n) && Added(s, s1, n, b) && s1.index.pending == None && HighOk(s1)
    ensures var s' := Link(s1, if ChainStart(s) < n then s.tailBlock else None, b);
            BulkLoaded(s0, s', n + 1) && s'.added == s.added[n := b]
  {
    hide Inv, Base, Number, Blocks, Chained, Distinct, Added;
    SizeOfInv(s);
    BulkSteady(s0, s, n);
    BeforeLink(s0, s, s1, n, b);
    var lo := ChainStart(s);
    var s' := Link(s1, if lo < n then s.tailBlock else None, b);
    DistinctStays(s1, s', lo, n + 1);
    ChainGrows(s, s', lo, n, b);
  }

  lemma BulkFacts<T>(s0: State<T>, s: State<T>, n: nat)
    requires s.size > 0 && BulkLoaded(s0, s, n)
    ensures s.size == s0.size && s.items == s0.items && s.blocks == s0.blocks && s.index.count == n && |s.blocks| <= n
    ensures Later(s0, s) && |s.blocks| == Blocks(|s.items|, s.size)
    ensures forall k :: k in s.added <==> |s.blocks| <= k < n
  {
  }

  /** All blocks of a bulk enqueue of xs are in the index, and the first j elements are in their cells. */
  ghost predicate Writing<T>(s0: State<T>, s: State<T>, xs: seq<T>, n: nat, j: nat)
    requires s.size > 0 && j <= |xs|
  {
    && Loaded(s0, s, n) && Chained(s, ChainStart(s), n) && |s.blocks| == Blocks(|s.items|, s.size)
    && n == Blocks(|s.items| + |xs|, s.size) && Constructed(s, xs, j)
  }

  lemma WritingStarts<T>(s0: State<T>, s: State<T>, xs: seq<T>, n: nat, tailBlock: Option<Block>)
    requires s.size > 0 && BulkLoaded(s0, s, n) && n == Blocks(|s.items| + |xs|, s.size)
    ensures Writing(s0, s.(tailBlock := tailBlock), xs, n, 0)
    ensures forall k: nat :: Nth(s.(tailBlock := tailBlock), k) == Nth(s, k)
    ensures ChainStart(s.(tailBlock := tailBlock)) == ChainStart(s)
  {
    hide Base, Number, Blocks, Follows;
    var s' := s.(tailBlock := tailBlock);
    ChainedStays(s, s', ChainStart(s), n);
    ConstructedNone(s', xs);
    assert InOrder(s', n);
  }

  lemma WritingStays<T>(s0: State<T>, s: State<T>, s': State<T>, xs: seq<T>, n: nat, j: nat)
    requires Inv(s) && Inv(s') && s.size > 0 && j <= |xs| && Writing(s0, s, xs, n, j) && C.ByConsumers(s, s')
    ensures s'.size == s.size && Writing(s0, s', xs, n, j) && s'.tailBlock == s.tailBlock && s'.items == s.items
    ensures forall k: nat :: Nth(s', k) == Nth(s, k)
    ensures s'.next == s.next
  {
    hide Inv, Base, Number, Follows, Constructed, InOrder, Untouched, NoneHeld;
    LoadedStays(s0, s, s');
    ChainedStays(s, s', ChainStart(s), n);
    BlocksBounds(|s.items| + |xs|, s.size);
    ConstructedStays(s0, s, s', n, xs, j);
  }

  /** The element j to be written is in block number q, at the end of which Nth is the block to use. */
  lemma WritingOneMore<T>(s0: State<T>, s: State<T>, xs: seq<T>, n: nat, j: nat, q: nat)
    requires Inv(s) && s.size > 0 && j < |xs| && Writing(s0, s, xs, n, j) && ChainStart(s) <= q < n
    requires Number(|s.items| + j, s.size) == q
    ensures HasBlock(s, q) && Nth(s, q) == Some(BlockFor(s, q))
    ensures var s' := Construct(s, BlockFor(s, q), Offset(|s.items| + j, s.size), xs[j]);
            Writing(s0, s', xs, n, j + 1) && forall k: nat :: Nth(s', k) == Nth(s, k)
  {
    hide Inv, Base, Number, Blocks, Follows, Constructed, Untouched, NoneHeld, Offset;
    ChainIsOwned(s0, s, n, q);
    var s' := Construct(s, BlockFor(s, q), Offset(|s.items| + j, s.size), xs[j]);
    ConstructedOneMore(s, xs, j);
    ChainedStays(s, s', ChainStart(s), n);
  }

  /** At the end of block number q the walk is at the last block, or the next one follows. */
  lemma WalkOn<T>(s0: State<T>, s: State<T>, xs: seq<T>, n: nat, j: nat, q: nat)
    requires Inv(s) && s.size > 0 && j <= |xs| && Writing(s0, s, xs, n, j) && ChainStart(s) <= q < n
    ensures Nth(s, q).Some?
    ensures Nth(s, q) == Nth(s, n - 1) <==> q == n - 1
    ensures q < n - 1 ==> Nth(s, q).value in s.next && s.next[Nth(s, q).value] == Nth(s, q + 1)
  {
    hide Inv, Base, Number, Blocks, Constructed;
    ChainIsDistinct(s0, s, n);
    assert Owned(s, q);
    assert q < n - 1 ==> Follows(s, q);
  }

  lemma WritingDone<T>(s0: State<T>, s: State<T>, xs: seq<T>, n: nat)
    requires Inv(s) && s.size > 0 && Writing(s0, s, xs, n, |xs|) && TailIs(s, n)
    ensures AddedInOrder(s) && |s.items| + |xs| <= Base(s.index.count, s.size) && s.index.pending == None
    ensures Constructed(s, xs, |xs|) && Untouched(s.added, s.counter)
    ensures Settled(Publish(s, xs)) && Later(s0, s)
  {
    hide Inv, Base, Number, Blocks, Constructed, Chained;
    BlocksBounds(|s.items| + |xs|, s.size);
    PublishSettles(s0, s, n, xs);
  }

  lemma WritingFacts<T>(s0: State<T>, s: State<T>, xs: seq<T>, n: nat, j: nat)
    requires s.size > 0 && j <= |xs| && Writing(s0, s, xs, n, j)
    ensures n == Blocks(|s.items| + |xs|, s.size) && s.items == s0.items
  {
  }

  lemma WritingMoves<T>(s0: State<T>, s: State<T>, xs: seq<T>, n: nat, j: nat, tailBlock: Option<Block>)
    requires s.size > 0 && j <= |xs| && Writing(s0, s, xs, n, j)
    ensures Writing(s0, s.(tailBlock := tailBlock), xs, n, j)
    ensures forall k: nat :: Nth(s.(tailBlock := tailBlock), k) == Nth(s, k)
  {
    hide Base, Number, Blocks, Follows, Written;
    var s' := s.(tailBlock := tailBlock);
    ChainedStays(s, s', ChainStart(s), n);
    assert InOrder(s', n);
    forall i: nat | |s.items| <= i < |s.items| + j ensures Written(s', xs, i) {
      assert Written(s, xs, i);
      WrittenMoves(s, xs, i, tailBlock);
    }
  }

  lemma WrittenMoves<T>(s: State<T>, xs: seq<T>, i: nat, tailBlock: Option<Block>)
    requires s.size > 0 && |s.items| <= i < |s.items| + |xs| && Written(s, xs, i)
    ensures Written(s.(tailBlock := tailBlock), xs, i)
  {
  }

  /** The last element of a bulk enqueue is in block number n - 1, and the first at or before it. */
  lemma WalkBounds(start: nat, count: nat, n: nat, size: nat)
    requires size > 0 && count > 0 && n == Blocks(start + count, size)
    ensures Number(start, size) < n
  {
    NumberMonotone(start, start + count - 1, size);
  }

  /** The walk stops at the end of block number q, or at the end of the elements if q is the last. */
  lemma WalkReaches(newTail: nat, n: nat, q: nat, current: nat, size: nat)
    requires size > 0 && q < n == Blocks(newTail, size)
    requires current == if newTail < Base(q, size) + size then newTail else Base(q, size) + size
    ensures if q == n - 1 then current == newTail else current < newTail && Number(current, size) == q + 1
  {
    NumberBounds(newTail - 1, size);
    BaseStep(q, size);
    if q < n - 1 {
      BaseMonotone(q, n - 1, size);
      NumberOfBase(q + 1, size);
    }
  }

  // ---------- rolling a bulk enqueue back ----------

  /** The chain of blocks to be undone, by their `next`. */
  ghost predicate LinksOf(next: map<Block, Option<Block>>, chain: seq<Block>) {
    && (forall j :: 0 <= j < |chain| ==> chain[j] in next && next[chain[j]] == if j + 1 < |chain| then Some(chain[j + 1]) else None)
    && (forall j, m :: 0 <= j < m < |chain| ==> chain[j] != chain[m])
  }

  /** The blocks held outside the index are exactly these. */
  ghost predicate Held(home: map<Block, Option<nat>>, chain: seq<Block>) {
    && (forall j :: 0 <= j < |chain| ==> chain[j] in home && home[chain[j]] == None)
    && (forall b :: b in home && home[b] == None ==> b in chain)
  }

  ghost predicate AddedFrom(added: map<nat, Block>, base: nat, chain: seq<Block>, i: nat) {
    && (forall k :: k in added <==> base + i <= k < base + |chain|)
    && (forall k :: k in added ==> added[k] == chain[k - base])
  }

  /** The first i blocks of the chain have been taken out of the index, and the tail is rewound by r blocks. */
  ghost predicate Unloading<T>(s0: State<T>, s: State<T>, chain: seq<Block>, i: nat, r: nat) {
    && s.size == s0.size && s.items == s0.items && s.blocks == s0.blocks && Later(s0, s) && |s.flights| == |s0.flights|
    && r <= i <= |chain| && s.index.count + r == |s.blocks| + |chain| && s.index.pending == None
    && AddedFrom(s.added, |s.blocks|, chain, i) && Held(s.home, chain[..i]) && LinksOf(s.next, chain)
    && (chain != [] ==> s.index.tables != [] && s.index.keyed <= |s.blocks| && HighOk(s))
  }

  lemma ChainTables<T>(s: State<T>, k: nat)
    requires Inv(s) && k in s.added
    ensures s.index.tables != [] && s.index.keyed <= k && k in s.index.live
  {
  }

  lemma UnloadingStarts<T>(s0: State<T>, s: State<T>, n: nat) returns (chain: seq<Block>)
    requires Inv(s) && s.size > 0 && BulkLoaded(s0, s, n)
    ensures Unloading(s0, s, chain, 0, 0) && n == |s.blocks| + |chain|
    ensures chain != [] ==> Nth(s, |s.blocks|) == Some(chain[0])
  {
    hide Inv, Base, Number, Blocks, Distinct;
    BulkSteady(s0, s, n);
    ChainIsDistinct(s0, s, n);
    chain := Chain(s.added, |s.blocks|, n - |s.blocks|);
    if chain != [] {
      ChainTables(s, |s.blocks|);
    }
    ChainLinks(s, n, chain);
  }

  lemma ChainLinks<T>(s: State<T>, n: nat, chain: seq<Block>)
    requires s.size > 0 && |s.blocks| <= n && InOrder(s, n) && chain == Chain(s.added, |s.blocks|, n - |s.blocks|)
    requires Chained(s, ChainStart(s), n) && Distinct(s, ChainStart(s), n) && ChainStart(s) <= |s.blocks|
    ensures LinksOf(s.next, chain)
  {
    hide Base, Number, Blocks;
    assert forall j :: 0 <= j < |chain| ==> Nth(s, |s.blocks| + j) == Some(chain[j]);
    forall j | 0 <= j < |chain|
      ensures chain[j] in s.next && s.next[chain[j]] == if j + 1 < |chain| then Some(chain[j + 1]) else None
    {
      assert j + 1 < |chain| ==> Follows(s, |s.blocks| + j);
    }
    forall j, m | 0 <= j < m < |chain| ensures chain[j] != chain[m] {
      assert Nth(s, |s.blocks| + j) != Nth(s, |s.blocks| + m);
    }
  }

  lemma HeldStays<T>(s: State<T>, s': State<T>, chain: seq<Block>)
    requires C.HomeKept(s, s') && Held(s.home, chain)
    ensures Held(s'.home, chain)
  {
  }

  lemma UnloadingStays<T>(s0: State<T>, s: State<T>, s': State<T>, chain: seq<Block>, i: nat, r: nat)
    requires C.ByConsumers(s, s') && Unloading(s0, s, chain, i, r)
    ensures Unloading(s0, s', chain, i, r)
  {
    hide C.HomeKept, Held, LinksOf, AddedFrom;
    HeldStays(s, s', chain[..i]);
  }

  /** Taking block number |blocks| + i out. */
  lemma UnloadingTakes<T>(s0: State<T>, s: State<T>, chain: seq<Block>, i: nat, e: nat)
    requires Unloading(s0, s, chain, i, i) && i < |chain| && e < |s.index.key| == |s.index.value|
    requires s.index.key[e] == Some(|s.blocks| + i)
    ensures s.index.key[e].value in s.added && Unloading(s0, TakeBack(s, e), chain, i + 1, i)
  {
    assert chain[..i + 1] == chain[..i] + [chain[i]];
  }

  lemma UnloadingRewinds<T>(s0: State<T>, s: State<T>, chain: seq<Block>, i: nat)
    requires Unloading(s0, s, chain, i + 1, i) && i < |chain| && Shape(s.index)
    ensures |s.blocks| < s.index.count && s.index.tables != []
    ensures s.index.high < s.index.count + |s.index.tables[Newest(s.index)]|
    ensures Unloading(s0, Unwind(s), chain, i + 1, i + 1)
  {
  }

  /** What looking up the entry of block number |blocks| + i needs. */
  lemma UnloadingFinds<T>(s0: State<T>, s: State<T>, chain: seq<Block>, i: nat)
    requires Inv(s) && Unloading(s0, s, chain, i, i) && i < |chain|
    ensures |s.blocks| + i in s.index.live && s.index.tables != [] && s.index.keyed < s.index.count
  {
    assert |s.blocks| + i in s.added;
    ChainTables(s, |s.blocks| + i);
  }

  /** All are out of the index; the first i have gone back to the pool. */
  ghost predicate Returning<T>(s0: State<T>, s: State<T>, chain: seq<Block>, i: nat) {
    && s.size == s0.size && s.items == s0.items && s.blocks == s0.blocks && Later(s0, s) && |s.flights| == |s0.flights|
    && i <= |chain| && s.index.count == |s.blocks| && s.index.pending == None && s.added == map[]
    && Held(s.home, chain[i..]) && LinksOf(s.next, chain)
  }

  lemma ReturningStarts<T>(s0: State<T>, s: State<T>, chain: seq<Block>)
    requires Unloading(s0, s, chain, |chain|, |chain|)
    ensures Returning(s0, s, chain, 0)
  {
    assert chain[..|chain|] == chain == chain[0..];
  }

  lemma ReturningStays<T>(s0: State<T>, s: State<T>, s': State<T>, chain: seq<Block>, i: nat)
    requires C.ByConsumers(s, s') && Returning(s0, s, chain, i)
    ensures Returning(s0, s', chain, i)
  {
    hide C.HomeKept, Held, LinksOf;
    HeldStays(s, s', chain[i..]);
  }

  lemma ReturningOne<T>(s0: State<T>, s: State<T>, chain: seq<Block>, i: nat)
    requires Returning(s0, s, chain, i) && i < |chain|
    ensures chain[i] in s.home && s.home[chain[i]] == None && Returning(s0, Release(s, chain[i]), chain, i + 1)
  {
    assert chain[i..] == [chain[i]] + chain[i + 1..];
  }

  lemma ReturningDone<T>(s0: State<T>, s: State<T>, chain: seq<Block>)
    requires s0.size > 0 && Settled(s0) && s.size > 0 && Returning(s0, s, chain, |chain|) && s.tailBlock == s0.tailBlock
    ensures Settled(s)
  {
  }

  lemma FindsLive<T>(s: State<T>, k: nat)
    requires Inv(s) && s.index.tables != [] && k in s.index.live && s.index.keyed < s.index.count
    ensures Shape(s.index)
    ensures var n := Newest(s.index);
            var tail := s.index.tails[n];
            && s.index.key[s.index.tables[n][tail]].Some?
            && var slot := (tail + (k - s.index.key[s.index.tables[n][tail]].value)) % |s.index.tables[n]|;
               s.index.key[s.index.tables[n][slot]] == Some(k) && s.index.value[s.index.tables[n][slot]] == Some(s.index.live[k])
  {
    LookupFindsBlock(s.index, Newest(s.index), k);
  }

  lemma UnloadingFacts<T>(s0: State<T>, s: State<T>, chain: seq<Block>, i: nat, r: nat)
    requires Unloading(s0, s, chain, i, r)
    ensures s.items == s0.items && s.blocks == s0.blocks && s.size == s0.size && LinksOf(s.next, chain)
  {
  }

  lemma ReturningFacts<T>(s0: State<T>, s: State<T>, chain: seq<Block>, i: nat)
    requires Returning(s0, s, chain, i)
    ensures LinksOf(s.next, chain)
  {
  }

  lemma ReturningMoves<T>(s0: State<T>, s: State<T>, chain: seq<Block>, tailBlock: Option<Block>)
    requires Returning(s0, s, chain, |chain|)
    ensures Returning(s0, s.(tailBlock := tailBlock), chain, |chain|)
  {
  }

  lemma SettledFacts<T>(s0: State<T>, s: State<T>, chain: seq<Block>)
    requires s0.size > 0 && Settled(s0) && Returning(s0, s, chain, |chain|)
    ensures s.items == s0.items && s.blocks == s0.blocks && Later(s0, s)
    ensures s.index.count == s0.index.count && s.added == s0.added
  {
  }

  /** Where the writing of a bulk enqueue starts: at the old tail block, or at the first new block. */
  lemma BulkTails<T>(s0: State<T>, s: State<T>, n: nat, xs: seq<T>)
    requires Inv(s0) && Settled(s0) && s.size > 0 && BulkLoaded(s0, s, n) && n == Blocks(|s.items| + |xs|, s.size)
    ensures s.tailBlock == if n == 0 then None else Nth(s, n - 1)
    ensures n > |s.blocks| ==> Nth(s, |s.blocks|).Some?
    ensures var aligned := |s.items| % s.size == 0 && n > |s.blocks|;
            var begin := if aligned then Nth(s, |s.blocks|) else s0.tailBlock;
            begin == if xs == [] then s.tailBlock else Nth(s, ChainStart(s))
  {
    hide Inv, Chained, Base, Number, Blocks, Offset, HighOk;
    var start := |s.items|;
    BlocksOfNumber(start, Number(start, s.size), s.size);
    AlignedAtBase(start, s.size);
    if xs == [] {
      assert n == |s.blocks|;
    } else {
      WalkBounds(start, |xs|, n, s.size);
    }
  }

  lemma WritingBegins<T>(s0: State<T>, s: State<T>, xs: seq<T>, n: nat, first: Option<Block>)
    requires Inv(s0) && Settled(s0) && s.size > 0 && BulkLoaded(s0, s, n) && n == Blocks(|s.items| + |xs|, s.size)
    requires first == if n == |s.blocks| then None else Nth(s, |s.blocks|)
    ensures var begin := if |s.items| % s.size == 0 && first.Some? then first else s0.tailBlock;
            var s' := s.(tailBlock := begin);
            && Writing(s0, s', xs, n, 0) && s.tailBlock == (if n == 0 then None else Nth(s', n - 1))
            && begin == if xs == [] then s.tailBlock else Nth(s', ChainStart(s'))
  {
    hide Inv, Settled, BulkLoaded, Writing, Base, Number, Blocks, Nth, ChainStart;
    BulkFacts(s0, s, n);
    WritingStarts(s0, s, xs, n, if |s.items| % s.size == 0 && first.Some? then first else s0.tailBlock);
    BulkTails(s0, s, n, xs);
  }

  // ---------- the beginning and the end ----------

  function Initial<T>(size: nat, initial: nat, consumers: nat): State<T> {
    State(size, View([], [], [], [], [], [], [], map[], None, 0, 0, 0, initial), map[], map[], map[], None, 0,
          seq(consumers, _ => Idle), [], [], [], map[], {}, {}, map[])
  }

  lemma NothingFits(limit: Option<nat>, w: nat)
    requires w >= 1
    ensures Fits(0, 0, limit, w)
  {
  }

  lemma InitialIsSettled<T>(size: nat, initial: nat, consumers: nat)
    requires size > 0
    ensures Inv(Initial<T>(size, initial, consumers)) && Settled(Initial<T>(size, initial, consumers))
    ensures Steady(Initial<T>(size, initial, consumers))
  {
    var s: State<T> := Initial(size, initial, consumers);
    forall k ensures StageOk(s.size, s.nulled, s.released, s.done, s.flights, k) {
      C.QuietSums(k, size, s.flights);
    }
  }

  ghost predicate Quiet<T>(s: State<T>) {
    forall t :: 0 <= t < |s.flights| ==> s.flights[t].Idle?
  }

  /** With no consumer active, the blocks from the head's on are owned, and are in the index. */
  lemma QuietBlock<T>(s: State<T>, k: nat)
    requires Inv(s) && Quiet(s) && k < |s.blocks|
    ensures k in s.released <==> k < Number(s.head, s.size)
    ensures k >= Number(s.head, s.size) ==> k in s.index.live
  {
    hide Ok;
    C.QuietBlocks(s, k);
    NumberBelow(s.head, k + 1, s.size);
    C.QuietSums(k, s.size, s.flights);
    assert StageOk(s.size, s.nulled, s.released, s.done, s.flights, k);
  }

  /** The next element to be destroyed, its block, and how to find it. */
  lemma QuietElement<T>(s: State<T>, i: nat)
    requires Inv(s) && Quiet(s) && s.head <= i < |s.items|
    ensures var k := Number(i, s.size);
            && k < |s.blocks| && k in s.index.live && s.index.live[k] == s.blocks[k] && s.index.tables != []
            && s.index.keyed < s.index.count
            && (s.blocks[k], Offset(i, s.size)) in s.cells && s.cells[(s.blocks[k], Offset(i, s.size))] == s.items[i]
  {
    hide Ok;
    var k := Number(i, s.size);
    NumberBelow(i, |s.blocks|, s.size);
    NumberMonotone(s.head, i, s.size);
    QuietBlock(s, k);
    CellHoldsItem(s, i);
    LiveIsKeyed(s, k);
  }

  lemma LiveIsKeyed<T>(s: State<T>, k: nat)
    requires Inv(s) && k in s.index.live && k < |s.blocks|
    ensures s.index.tables != [] && s.index.keyed < s.index.count
  {
  }

  /** Since the pool was `start`, these blocks have been given back to it. */
  ghost predicate FreedSo(start: set<Block>, free: set<Block>, returned: seq<Block>) {
    forall b :: b in free <==> b in start || b in returned
  }

  lemma NothingFreed(free: set<Block>)
    ensures FreedSo(free, free, [])
  {
  }

  lemma SliceGrows<X>(xs: seq<X>, lo: nat, i: nat)
    requires lo <= i < |xs|
    ensures xs[lo..i] + [xs[i]] == xs[lo..i + 1]
  {
  }

  predicate NoRepeats(s: seq<Block>) {
    forall i, j :: 0 <= i < j < |s| ==> s[i] != s[j]
  }

  lemma QuietBounds<T>(s: State<T>)
    requires Inv(s)
    ensures s.head <= |s.items| && Number(s.head, s.size) <= |s.blocks|
  {
    hide Ok;
    PublishedBlocks(s);
    BlocksOfNumber(s.head, Number(s.head, s.size), s.size);
  }

  /** The owned blocks of a quiet settled sub-queue are those from the head's on. */
  lemma QuietHome<T>(s: State<T>, b: Block)
    requires Inv(s) && Settled(s) && Quiet(s) && Number(s.head, s.size) <= |s.blocks|
    ensures b in s.home <==> b in s.blocks[Number(s.head, s.size)..]
  {
    hide Inv, Settled, Number;
    SettledIsDetermined(s);
    SizeOfInv(s);
    forall k: nat | k < |s.blocks| ensures k in s.released <==> k < Number(s.head, s.size) {
      QuietBlock(s, k);
    }
  }

  /** The last of them is the tail block. */
  lemma QuietEnd<T>(s: State<T>)
    requires Inv(s) && Settled(s) && Quiet(s)
    ensures s.head <= |s.items| && Number(s.head, s.size) <= |s.blocks|
    ensures forall b :: b in s.home <==> b in s.blocks[Number(s.head, s.size)..]
    ensures NoRepeats(s.blocks[Number(s.head, s.size)..])
    ensures if s.head == |s.items| then |s.blocks| == Number(s.head, s.size) + (if s.head % s.size == 0 then 0 else 1)
            else |s.blocks| == Number(|s.items| - 1, s.size) + 1
    ensures s.tailBlock == if s.blocks == [] then None else Some(s.blocks[|s.blocks| - 1])
  {
    hide Inv, Number, Base;
    QuietBounds(s);
    SizeOfInv(s);
    forall b: Block ensures b in s.home <==> b in s.blocks[Number(s.head, s.size)..] {
      QuietHome(s, b);
    }
    forall i, j | Number(s.head, s.size) <= i < j < |s.blocks| ensures s.blocks[i] != s.blocks[j] {
      QuietBlock(s, i);
      QuietBlock(s, j);
      NthDiffer(s, i, j);
    }
    AlignedAtBase(s.head, s.size);
    BlocksOfNumber(s.head, Number(s.head, s.size), s.size);
  }
}
