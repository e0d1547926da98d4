/**
 The producer's atomic steps on an implicit sub-queue: each keeps the invariant that the
 consumers rely on, in whatever order consumer steps come between them.
 */
module ImplicitUpdates {
  import opened Sums
  import opened BlockNumbers
  import opened BlockIndex
  import opened ImplicitState
  import C = ImplicitConsumer

  // ---------- the block index ----------

  ghost predicate KeysStay(key: seq<Option<nat>>, key': seq<Option<nat>>) {
    |key| <= |key'| && forall e :: 0 <= e < |key| && key[e].Some? ==> key'[e].Some?
  }

  /** Consumers' lookups survive when bases are stored and headers are added. */
  lemma FlightsSurvive(size: nat, index: View, index': View, blocks: seq<Block>, head: nat, flights: seq<Flight>, published: nat)
    requires size > 0 && FlightsOk(size, index, blocks, head, flights) && KeysStay(index.key, index'.key)
    requires |index.tables| == |index.seen| && |index'.tables| == |index'.seen| && |index.tables| == |index.shift|
    requires index.tables <= index'.tables && index.shift <= index'.shift
    requires if index'.tables == index.tables then index'.seen == index.seen
             else index.tables != [] ==> index.seen[..|index.seen| - 1] <= index'.seen && index'.seen[|index.seen| - 1] == published
    requires Blocks(head, size) <= published
    ensures FlightsOk(size, index', blocks, head, flights)
  {
    forall t | 0 <= t < |flights| ensures FlightOk(size, index', blocks, head, flights[t]) {
      var f := flights[t];
      assert FlightOk(size, index, blocks, head, f);
      if !f.Idle? {
        BlocksMonotone(f.stop, head, size);
      }
    }
  }

  lemma PublishedBlocks<T>(s: State<T>)
    requires Books(s)
    ensures Blocks(s.head, s.size) <= Blocks(|s.items|, s.size) <= |s.blocks|
  {
    BlocksMonotone(s.head, |s.items|, s.size);
    if |s.items| > 0 {
      NumberBelow(|s.items| - 1, |s.blocks|, s.size);
    }
  }

  /** An enqueue is between its steps, not inside a rollback: every live block is below `count`. */
  ghost predicate Steady<T>(s: State<T>) {
    Bounds(s.index.live, s.index.count) && s.index.pending == None
  }

  function Insert<T>(s: State<T>): State<T>
    requires Shape(s.index) && s.index.tables != [] && NextEntry(s.index) < |s.index.key|
  {
    s.(index := StoreKey(s.index))
  }

  lemma InsertKeepsInv<T>(s: State<T>)
    requires Inv(s) && s.index.tables != [] && HasRoom(s.index) && Steady(s)
    ensures Inv(Insert(s))
  {
    StoreKeyKeepsOk(s.index);
    PublishedBlocks(s);
    FlightsSurvive(s.size, s.index, StoreKey(s.index), s.blocks, s.head, s.flights, |s.blocks|);
  }

  function Enlarge<T>(s: State<T>, junk: seq<Option<Block>>): State<T>
    requires Shape(s.index)
  {
    s.(index := Grow(s.index, junk, |s.blocks|))
  }

  lemma EnlargeKeepsBooks<T>(s: State<T>, junk: seq<Option<Block>>)
    requires Books(s) && Shape(s.index) && Shape(Grow(s.index, junk, |s.blocks|)) && |junk| == FreshEntries(s.index)
    ensures Books(Enlarge(s, junk))
  {
    PublishedBlocks(s);
    FlightsSurvive(s.size, s.index, Grow(s.index, junk, |s.blocks|), s.blocks, s.head, s.flights, |s.blocks|);
  }

  lemma EnlargeKeepsInv<T>(s: State<T>, junk: seq<Option<Block>>)
    requires Inv(s) && Steady(s) && |junk| == FreshEntries(s.index) && (s.index.tables != [] ==> s.index.count == s.index.high)
    ensures Inv(Enlarge(s, junk))
  {
    GrowKeepsOk(s.index, junk, |s.blocks|);
    EnlargeKeepsBooks(s, junk);
  }

  function Unwind<T>(s: State<T>): State<T>
    requires Shape(s.index) && s.index.tables != [] && s.index.count > 0
  {
    s.(index := Rewind(s.index))
  }

  lemma UnwindKeepsInv<T>(s: State<T>)
    requires Inv(s) && s.index.tables != [] && |s.blocks| < s.index.count
    requires s.index.high < s.index.count + |s.index.tables[Newest(s.index)]|
    ensures Inv(Unwind(s))
  {
    RewindKeepsOk(s.index);
    PublishedBlocks(s);
    FlightsSurvive(s.size, s.index, Rewind(s.index), s.blocks, s.head, s.flights, |s.blocks|);
  }

  // ---------- blocks ----------

  /** A block from the pool, its counter reset. What its cells held is gone. */
  function Acquire<T>(s: State<T>, b: Block): State<T> {
    s.(home := s.home[b := None], counter := s.counter[b := 0],
       cells := map c | c in s.cells && c.0 != b :: s.cells[c])
  }

  lemma AcquireKeepsInv<T>(s: State<T>, b: Block)
    requires Inv(s) && b !in s.home
    ensures Inv(Acquire(s, b))
  {
    var s' := Acquire(s, b);
    forall k: nat | k < |s.blocks| ensures CountOk(s.size, s.blocks[k], s'.counter, s.released, s.done[k], s.head, s.flights, k) {
      assert CountOk(s.size, s.blocks[k], s.counter, s.released, s.done[k], s.head, s.flights, k);
    }
    forall i: nat | i < |s.items| ensures ItemOk(s.size, s'.cells, s.items, s.blocks, s.released, i) {
      if Number(i, s.size) < |s.blocks| && Number(i, s.size) !in s.released {
        CellHoldsItem(s, i);
      }
    }
  }

  /** The block goes into the index as block number k. */
  function Put<T>(s: State<T>, e: nat, k: nat, b: Block): State<T>
    requires e < |s.index.value|
  {
    s.(index := StoreValue(s.index, e, k, b), added := s.added[k := b], home := s.home[b := Some(k)])
  }

  lemma PutKeepsBooks<T>(s: State<T>, e: nat, k: nat, b: Block)
    requires Books(s) && e < |s.index.value| && |s.blocks| <= k && k !in s.index.live
    requires b in s.home && s.home[b] == None
    ensures Books(Put(s, e, k, b))
  {
    forall t | 0 <= t < |s.flights| ensures FlightOk(s.size, StoreValue(s.index, e, k, b), s.blocks, s.head, s.flights[t]) {
      assert FlightOk(s.size, s.index, s.blocks, s.head, s.flights[t]);
    }
  }

  lemma PutKeepsInv<T>(s: State<T>, e: nat, k: nat, b: Block)
    requires Inv(s) && s.index.tables != [] && k !in s.added && k + 1 == s.index.count && |s.blocks| <= k
    requires s.index.pending == Some(k) && b in s.home && s.home[b] == None
    requires var n := Newest(s.index); e == s.index.tables[n][Slot(|s.index.tables[n]|, s.index.shift[n], k)]
    requires s.index.key[e] == Some(k) && s.index.keyed <= k
    ensures Inv(Put(s, e, k, b))
  {
    StoreValueKeepsOk(s.index, e, k, b);
    PutKeepsBooks(s, e, k, b);
  }

  /** The entry that has been claimed and got no block is nulled. */
  function Disclaim<T>(s: State<T>, e: nat): State<T>
    requires e < |s.index.key| == |s.index.value| && s.index.key[e].Some?
  {
    s.(index := StoreNull(s.index, e))
  }

  lemma StoreNullFlights<T>(s: State<T>, e: nat)
    requires Books(s) && e < |s.index.key| == |s.index.value| && s.index.key[e].Some?
    ensures FlightsOk(s.size, StoreNull(s.index, e), s.blocks, s.head, s.flights)
  {
    C.NulledFlights(s.size, s.index, s.blocks, s.head, s.flights, e);
  }

  lemma DisclaimKeepsInv<T>(s: State<T>, e: nat)
    requires Inv(s) && e < |s.index.key| && s.index.key[e].Some? && s.index.key[e] == s.index.pending
    requires s.index.key[e].value !in s.added
    ensures Inv(Disclaim(s, e))
  {
    StoreNullKeepsOk(s.index, e);
    StoreNullFlights(s, e);
  }

  /** A block that has been put in the index is taken out again. */
  function TakeBack<T>(s: State<T>, e: nat): State<T>
    requires e < |s.index.key| == |s.index.value| && s.index.key[e].Some? && s.index.key[e].value in s.added
  {
    var k := s.index.key[e].value;
    s.(index := StoreNull(s.index, e), added := s.added - {k}, home := s.home[s.added[k] := None])
  }

  lemma TakeBackKeepsBooks<T>(s: State<T>, e: nat)
    requires Books(s) && e < |s.index.key| == |s.index.value| && s.index.key[e].Some? && s.index.key[e].value in s.added
    ensures Books(TakeBack(s, e)) && TakeBack(s, e).home.Keys == s.home.Keys
  {
    StoreNullFlights(s, e);
  }

  lemma TakeBackKeepsInv<T>(s: State<T>, e: nat)
    requires Inv(s) && e < |s.index.key| && s.index.key[e].Some? && s.index.key[e].value in s.added
    ensures Inv(TakeBack(s, e)) && TakeBack(s, e).home.Keys == s.home.Keys
  {
    StoreNullKeepsOk(s.index, e);
    TakeBackKeepsBooks(s, e);
  }

  /** A block that is not in the index goes back to the pool. */
  function Release<T>(s: State<T>, b: Block): State<T> {
    s.(home := s.home - {b})
  }

  lemma ReleaseKeepsInv<T>(s: State<T>, b: Block)
    requires Inv(s) && b in s.home && s.home[b] == None
    ensures Inv(Release(s, b))
  {
  }

  // ---------- elements ----------

  function Construct<T>(s: State<T>, b: Block, o: nat, x: T): State<T> {
    s.(cells := s.cells[(b, o) := x])
  }

  /** The block that elements i onwards go to: published, or put in the index by this enqueue. */
  function BlockFor<T>(s: State<T>, k: nat): Block
    requires k < |s.blocks| || k in s.added
  {
    if k < |s.blocks| then s.blocks[k] else s.added[k]
  }

  ghost predicate HasBlock<T>(s: State<T>, k: nat) {
    if k < |s.blocks| then k !in s.released else k in s.added
  }

  /** Writing element i, not published yet, spares the cells of the published ones. */
  lemma ConstructKeepsInv<T>(s: State<T>, i: nat, x: T)
    requires Inv(s) && |s.items| <= i && HasBlock(s, Number(i, s.size))
    ensures Inv(Construct(s, BlockFor(s, Number(i, s.size)), Offset(i, s.size), x))
  {
    var k := Number(i, s.size);
    var b := BlockFor(s, k);
    var s' := Construct(s, b, Offset(i, s.size), x);
    forall m: nat | m < |s.items| ensures ItemOk(s.size, s'.cells, s.items, s.blocks, s.released, m) {
      if Number(m, s.size) < |s.blocks| && Number(m, s.size) !in s.released {
        CellHoldsItem(s, m);
        NumberBounds(m, s.size);
        NumberBounds(i, s.size);
        assert s.blocks[Number(m, s.size)] == b ==> Number(m, s.size) == k;
      }
    }
  }

  /** The block of the first unpublished element, unless it is the first of its block, is owned. */
  lemma TailBlockIsOwned<T>(s: State<T>, k: nat)
    requires Inv(s) && k < |s.blocks| && s.head < Base(k + 1, s.size)
    ensures k !in s.released && HasBlock(s, k)
  {
    BaseStep(k, s.size);
    assert CountOk(s.size, s.blocks[k], s.counter, s.released, s.done[k], s.head, s.flights, k);
    assert StageOk(s.size, s.nulled, s.released, s.done, s.flights, k);
  }

  /** The blocks with numbers from n on, m of them. */
  function Chain(added: map<nat, Block>, n: nat, m: nat): (chain: seq<Block>)
    requires forall k :: n <= k < n + m ==> k in added
    ensures |chain| == m && forall i :: 0 <= i < m ==> chain[i] == added[n + i]
  {
    seq(m, i requires 0 <= i < m => added[n + i])
  }

  /** The blocks put in the index are numbered on from the published ones. */
  ghost predicate AddedInOrder<T>(s: State<T>) {
    && |s.blocks| <= s.index.count
    && forall k :: k in s.added <==> |s.blocks| <= k < s.index.count
  }

  /** The tail index moves: elements xs, and the blocks they needed, are published. */
  function Publish<T>(s: State<T>, xs: seq<T>): State<T>
    requires forall k :: |s.blocks| <= k < s.index.count ==> k in s.added
    requires |s.blocks| <= s.index.count
  {
    var m := s.index.count - |s.blocks|;
    s.(items := s.items + xs, blocks := s.blocks + Chain(s.added, |s.blocks|, m), done := s.done + seq(m, _ => 0), added := map[])
  }

  lemma PublishedCounts<T>(s: State<T>, xs: seq<T>)
    requires Books(s) && AddedInOrder(s)
    requires forall k :: k in s.added ==> s.added[k] in s.counter && s.counter[s.added[k]] == 0
    ensures var s' := Publish(s, xs);
            && CountsOk(s'.size, s'.blocks, s'.counter, s'.released, s'.done, s'.head, s'.flights)
            && StagesOk(s'.size, s'.nulled, s'.released, s'.done, s'.flights)
  {
    var s' := Publish(s, xs);
    forall k: nat | k < |s'.blocks| ensures CountOk(s.size, s'.blocks[k], s'.counter, s'.released, s'.done[k], s'.head, s'.flights, k) {
      if k < |s.blocks| {
        assert CountOk(s.size, s.blocks[k], s.counter, s.released, s.done[k], s.head, s.flights, k);
      } else {
        BaseOrder(|s.blocks|, k, s.size);
        NothingClaimed(s, k);
      }
    }
    forall k ensures StageOk(s'.size, s'.nulled, s'.released, s'.done, s'.flights, k) {
      assert StageOk(s.size, s.nulled, s.released, s.done, s.flights, k);
    }
  }

  lemma NothingClaimed<T>(s: State<T>, k: nat)
    requires Books(s) && s.head <= Base(k, s.size)
    ensures Sum(Units(k, s.size), s.flights) == 0
  {
    forall t | 0 <= t < |s.flights| ensures Units(k, s.size)(s.flights[t]) == 0 {
      assert FlightOk(s.size, s.index, s.blocks, s.head, s.flights[t]);
    }
    SumZero(Units(k, s.size), s.flights);
  }

  lemma PublishedFlights<T>(s: State<T>, xs: seq<T>)
    requires Books(s) && AddedInOrder(s)
    ensures var s' := Publish(s, xs); FlightsOk(s'.size, s'.index, s'.blocks, s'.head, s'.flights)
  {
    var s' := Publish(s, xs);
    forall t | 0 <= t < |s.flights| ensures FlightOk(s'.size, s'.index, s'.blocks, s'.head, s'.flights[t]) {
      assert FlightOk(s.size, s.index, s.blocks, s.head, s.flights[t]);
    }
  }

  /** Element i, of the ones to be published, is in its cell. */
  ghost predicate Written<T>(s: State<T>, xs: seq<T>, i: nat)
    requires s.size > 0 && |s.items| <= i < |s.items| + |xs|
  {
    HasBlock(s, Number(i, s.size)) && CellOk(s.size, s.cells, BlockFor(s, Number(i, s.size)), i, xs[i - |s.items|])
  }

  /** The cells of the first n new elements hold them. */
  ghost predicate Constructed<T>(s: State<T>, xs: seq<T>, n: nat)
    requires s.size > 0 && n <= |xs|
  {
    forall i: nat :: |s.items| <= i < |s.items| + n ==> Written(s, xs, i)
  }

  lemma PublishedCells<T>(s: State<T>, xs: seq<T>)
    requires Books(s) && AddedInOrder(s) && Constructed(s, xs, |xs|)
    ensures var s' := Publish(s, xs); CellsOk(s'.size, s'.cells, s'.items, s'.blocks, s'.released)
  {
    var s' := Publish(s, xs);
    forall i: nat | i < |s'.items| ensures ItemOk(s.size, s.cells, s'.items, s'.blocks, s.released, i) {
      if i < |s.items| {
        NumberBelow(i, |s.blocks|, s.size);
        assert ItemOk(s.size, s.cells, s.items, s.blocks, s.released, i);
      } else {
        assert Written(s, xs, i);
      }
    }
  }

  lemma PublishedHome(blocks: seq<Block>, released: set<nat>, added: map<nat, Block>, home: map<Block, Option<nat>>, n: nat)
    requires HomeOk(blocks, released, added, home) && |blocks| <= n
    requires (forall k :: k in added <==> |blocks| <= k < n) && forall k :: k in released ==> k < |blocks|
    ensures HomeOk(blocks + Chain(added, |blocks|, n - |blocks|), released, map[], home)
  {
    var blocks' := blocks + Chain(added, |blocks|, n - |blocks|);
    assert forall k: nat :: |blocks| <= k < n ==> blocks'[k] == added[k];
  }

  lemma ReleasedIsPublished<T>(s: State<T>, k: nat)
    requires Books(s) && (k in s.released || k in s.nulled)
    ensures k < |s.blocks|
  {
    assert StageOk(s.size, s.nulled, s.released, s.done, s.flights, k);
  }

  lemma PublishedLive<T>(s: State<T>, xs: seq<T>)
    requires Books(s) && AddedInOrder(s) && s.index.pending == None
    ensures var s' := Publish(s, xs); LiveOk(s'.index, s'.blocks, s'.nulled, s'.added)
  {
    forall k | k in s.nulled ensures k < |s.blocks| {
      ReleasedIsPublished(s, k);
    }
  }

  lemma PublishKeepsInv<T>(s: State<T>, xs: seq<T>)
    requires Inv(s) && AddedInOrder(s) && |s.items| + |xs| <= Base(s.index.count, s.size)
    requires s.index.pending == None && Constructed(s, xs, |xs|)
    requires forall k :: k in s.added ==> s.added[k] in s.counter && s.counter[s.added[k]] == 0
    ensures Inv(Publish(s, xs))
  {
    PublishedCounts(s, xs);
    PublishedFlights(s, xs);
    PublishedCells(s, xs);
    forall k | k in s.released ensures k < |s.blocks| {
      ReleasedIsPublished(s, k);
    }
    PublishedHome(s.blocks, s.released, s.added, s.home, s.index.count);
    PublishedLive(s, xs);
  }
}
