/**
 An implicit producer's sub-queue as seen by its consumers, one step per atomic access.

 The producer (class in module ImplicitProducer) is one thread; its consumers are any
 number of others, each a Flight: the part of the head range it has claimed and not yet
 finished, and where it is in looking it up. Module Tickets shows that a claimed range is
 below the tail and that no two overlap; here a claim is one step.

 The state holds the shared memory and the history that explains it. `blocks[k]` is the
 block that holds elements k * size onwards, `added` those a running enqueue has put
 in the index and not published yet. `home` records what each block the sub-queue owns is
 for: Some(k) for block number k, None for a block taken from the pool and not in the
 index. A block leaves `home` when it is given back to the pool.
 */
module ImplicitState {
  import opened Sums
  import opened BlockNumbers
  import opened BlockIndex

  /** [index, stop) is the part of its claim a consumer has not finished; j, slot: where it looks blocks up. */
  datatype Flight =
    | Idle
    | Claimed(index: nat, stop: nat)                                    // head.fetch_add has been done
    | HasHeader(j: nat, index: nat, stop: nat)                          // the header pointer is loaded
    | HasTail(j: nat, tail: nat, index: nat, stop: nat)                 // its tail is loaded
    | Reading(j: nat, slot: nat, index: nat, stop: nat)                 // the slot is known
    | Clearing(j: nat, slot: nat, k: nat, b: Block, index: nat, stop: nat)  // this one emptied block b
    | Freeing(j: nat, slot: nat, k: nat, b: Block, index: nat, stop: nat)   // ... and has nulled its entry

  datatype State<T> = State(
    size: nat,                                       // BLOCK_SIZE
    index: View,
    cells: map<(Block, nat), T>, counter: map<Block, nat>, next: map<Block, Option<Block>>,
    tailBlock: Option<Block>, head: nat, flights: seq<Flight>,
    items: seq<T>, blocks: seq<Block>, done: seq<nat>, added: map<nat, Block>,
    nulled: set<nat>, released: set<nat>, home: map<Block, Option<nat>>)

  // ---------- what the flights hold ----------

  function Start(f: Flight): nat {
    if f.Idle? then 0 else f.index
  }

  function Stop(f: Flight): nat {
    if f.Idle? then 0 else f.stop
  }

  /** How many claimed and unfinished elements of block k a flight has. */
  ghost function Units(k: nat, size: nat): Flight -> nat {
    (f: Flight) => Overlap(Start(f), Stop(f), k, size)
  }

  ghost function Clears(k: nat): Flight -> nat {
    (f: Flight) => if f.Clearing? && f.k == k then 1 else 0
  }

  ghost function Frees(k: nat): Flight -> nat {
    (f: Flight) => if f.Freeing? && f.k == k then 1 else 0
  }

  // ---------- the invariant ----------

  /** The index maps the blocks that consumers have not nulled, and the added ones. */
  ghost predicate LiveOk(index: View, blocks: seq<Block>, nulled: set<nat>, added: map<nat, Block>) {
    && |blocks| <= index.count
    && (forall k :: k in index.live ==>
          if k < |blocks| then k !in nulled && index.live[k] == blocks[k] else k in added && index.live[k] == added[k])
    && (forall k: nat :: k < |blocks| && k !in nulled ==> k in index.live)
    && (forall k :: k in added ==> |blocks| <= k && k in index.live)
    && (index.pending.Some? ==> |blocks| <= index.pending.value)
  }

  /** What an owned block is for determines the block. */
  ghost predicate HomeOk(blocks: seq<Block>, released: set<nat>, added: map<nat, Block>, home: map<Block, Option<nat>>) {
    && (forall k: nat :: k < |blocks| && k !in released ==> blocks[k] in home && home[blocks[k]] == Some(k))
    && (forall k :: k in added ==> added[k] in home && home[added[k]] == Some(k))
    && (forall b :: b in home && home[b].Some? ==>
          var k := home[b].value;
          if k < |blocks| then k !in released && blocks[k] == b else k in added && added[k] == b)
  }

  /** Claimed elements are finished or in flight, and a block's counter counts the finished ones. */
  ghost predicate CountOk(size: nat, block: Block, counter: map<Block, nat>, released: set<nat>, done: nat, head: nat,
                          flights: seq<Flight>, k: nat) {
    && done + Sum(Units(k, size), flights) == Overlap(0, head, k, size)
    && (k !in released ==> block in counter && counter[block] == done)
  }

  ghost predicate CountsOk(size: nat, blocks: seq<Block>, counter: map<Block, nat>, released: set<nat>, done: seq<nat>,
                           head: nat, flights: seq<Flight>) {
    && |done| == |blocks|
    && forall k: nat :: k < |blocks| ==> CountOk(size, blocks[k], counter, released, done[k], head, flights, k)
  }

  /** An emptied block is nulled by exactly one consumer, and then given back by exactly one. */
  ghost predicate StageOk(size: nat, nulled: set<nat>, released: set<nat>, done: seq<nat>, flights: seq<Flight>, k: nat) {
    && Sum(Clears(k), flights) == (if k < |done| && done[k] == size && k !in nulled then 1 else 0)
    && Sum(Frees(k), flights) == (if k in nulled && k !in released then 1 else 0)
    && (k in nulled ==> k < |done| && done[k] == size)
    && (k in released ==> k in nulled)
  }

  ghost predicate StagesOk(size: nat, nulled: set<nat>, released: set<nat>, done: seq<nat>, flights: seq<Flight>) {
    forall k :: StageOk(size, nulled, released, done, flights, k)
  }

  /** Everything below index `stop` was published before header j was replaced, if it was. */
  ghost predicate Covered(index: View, j: nat, stop: nat, size: nat)
    requires size > 0
  {
    j < |index.tables| && j < |index.seen| && (j + 1 == |index.tables| || Blocks(stop, size) <= index.seen[j])
  }

  ghost predicate SlotIs(index: View, j: nat, slot: nat, k: nat) {
    && j < |index.tables| && j < |index.shift| && |index.tables[j]| > 0
    && slot == Slot(|index.tables[j]|, index.shift[j], k)
  }

  ghost predicate FlightOk(size: nat, index: View, blocks: seq<Block>, head: nat, f: Flight)
    requires size > 0
  {
    && Start(f) <= Stop(f) <= head
    && match f
       case Idle => true
       case Claimed(i, stop) => i < stop
       case HasHeader(j, i, stop) => i < stop && Covered(index, j, stop, size)
       case HasTail(j, tail, i, stop) =>
         && i < stop && Covered(index, j, stop, size)
         && tail < |index.tables[j]| && index.tables[j][tail] < |index.key| && index.key[index.tables[j][tail]].Some?
       case Reading(j, slot, i, stop) =>
         i < stop && Covered(index, j, stop, size) && SlotIs(index, j, slot, Number(i, size))
       case Clearing(j, slot, k, b, i, stop) => SectionOk(size, index, blocks, j, slot, k, b, i, stop)
       case Freeing(j, slot, k, b, i, stop) => SectionOk(size, index, blocks, j, slot, k, b, i, stop)
  }

  /** Block number k is done with, and the rest of the claim starts at the next block. */
  ghost predicate SectionOk(size: nat, index: View, blocks: seq<Block>, j: nat, slot: nat, k: nat, b: Block, i: nat, stop: nat)
    requires size > 0
  {
    && k < |blocks| && b == blocks[k] && Covered(index, j, stop, size) && SlotIs(index, j, slot, k)
    && k < Blocks(stop, size)
    && (i < stop ==> i == Base(k + 1, size))
  }

  ghost predicate FlightsOk(size: nat, index: View, blocks: seq<Block>, head: nat, flights: seq<Flight>)
    requires size > 0
  {
    forall t :: 0 <= t < |flights| ==> FlightOk(size, index, blocks, head, flights[t])
  }

  /** The cell of element i, as long as its block is owned. */
  ghost predicate CellOk<T>(size: nat, cells: map<(Block, nat), T>, block: Block, i: nat, x: T)
    requires size > 0
  {
    (block, Offset(i, size)) in cells && cells[(block, Offset(i, size))] == x
  }

  ghost predicate ItemOk<T>(size: nat, cells: map<(Block, nat), T>, items: seq<T>, blocks: seq<Block>, released: set<nat>, i: nat)
    requires size > 0 && i < |items|
  {
    Number(i, size) < |blocks| && Number(i, size) !in released ==> CellOk(size, cells, blocks[Number(i, size)], i, items[i])
  }

  ghost predicate CellsOk<T>(size: nat, cells: map<(Block, nat), T>, items: seq<T>, blocks: seq<Block>, released: set<nat>)
    requires size > 0
  {
    forall i: nat :: i < |items| ==> ItemOk(size, cells, items, blocks, released, i)
  }

  /** `seen` never counts a block that is not published. */
  ghost predicate SeenOk(index: View, published: nat) {
    forall j :: 0 <= j < |index.seen| ==> index.seen[j] <= published
  }

  /** All of the invariant but the block index's own. */
  ghost predicate Books<T>(s: State<T>) {
    && s.size > 0 && s.head <= |s.items| <= Base(|s.blocks|, s.size)
    && SeenOk(s.index, |s.blocks|)
    && LiveOk(s.index, s.blocks, s.nulled, s.added)
    && HomeOk(s.blocks, s.released, s.added, s.home)
    && CountsOk(s.size, s.blocks, s.counter, s.released, s.done, s.head, s.flights)
    && StagesOk(s.size, s.nulled, s.released, s.done, s.flights)
    && FlightsOk(s.size, s.index, s.blocks, s.head, s.flights)
    && CellsOk(s.size, s.cells, s.items, s.blocks, s.released)
  }

  ghost predicate Inv<T>(s: State<T>) {
    Ok(s.index) && Books(s)
  }

  // ---------- what a flight can rely on ----------

  lemma SizeIsPositive<T>(s: State<T>)
    requires Inv(s)
    ensures s.size > 0
  {
  }

  lemma FlightIsOk<T>(s: State<T>, t: nat)
    requires Inv(s) && t < |s.flights|
    ensures FlightOk(s.size, s.index, s.blocks, s.head, s.flights[t])
  {
  }

  /** Nothing of a block that is not published has been claimed. */
  lemma DoneIsPublished<T>(s: State<T>)
    requires Inv(s)
    ensures |s.done| == |s.blocks| && Blocks(s.head, s.size) <= |s.done|
  {
    BlocksMonotone(s.head, |s.items|, s.size);
    if |s.items| > 0 {
      NumberBelow(|s.items| - 1, |s.blocks|, s.size);
    }
  }

  lemma CounterIsDone<T>(s: State<T>, k: nat)
    requires Inv(s) && k < |s.blocks| && k !in s.released
    ensures k < |s.done| && s.blocks[k] in s.counter && s.counter[s.blocks[k]] == s.done[k]
  {
    assert CountOk(s.size, s.blocks[k], s.counter, s.released, s.done[k], s.head, s.flights, k);
  }

  /** A block with an unfinished claimed element is in the index and owned. */
  lemma UnfinishedIsLive<T>(s: State<T>, t: nat, k: nat)
    requires Books(s) && t < |s.flights| && Units(k, s.size)(s.flights[t]) > 0
    ensures k < |s.blocks| && s.done[k] + Units(k, s.size)(s.flights[t]) <= s.size
    ensures k !in s.nulled && k !in s.released && k in s.index.live && s.index.live[k] == s.blocks[k]
  {
    var f := s.flights[t];
    assert FlightOk(s.size, s.index, s.blocks, s.head, f);
    if k >= |s.blocks| {
      BaseOrder(|s.blocks|, k, s.size);
    }
    SumAtLeast(Units(k, s.size), s.flights, t);
    assert CountOk(s.size, s.blocks[k], s.counter, s.released, s.done[k], s.head, s.flights, k);
    assert StageOk(s.size, s.nulled, s.released, s.done, s.flights, k);
  }

  lemma BaseOrder(k: nat, m: nat, size: nat)
    requires k <= m
    ensures Base(k, size) <= Base(m, size)
  {
    if k < m {
      BaseMonotone(k, m, size);
    }
  }

  /** The first unfinished element of a flight is in a live block. */
  lemma HeadOfFlightIsLive<T>(s: State<T>, t: nat)
    requires Books(s) && t < |s.flights| && Start(s.flights[t]) < Stop(s.flights[t])
    ensures var k := Number(Start(s.flights[t]), s.size);
            && k < |s.blocks| && s.done[k] < s.size && k !in s.nulled && k !in s.released
            && k in s.index.live && s.index.live[k] == s.blocks[k]
  {
    NumberBounds(Start(s.flights[t]), s.size);
    UnfinishedIsLive(s, t, Number(Start(s.flights[t]), s.size));
  }

  /** The consumer that emptied a block is the only one, and the block is still in the index. */
  lemma ClearingIsLive<T>(s: State<T>, t: nat)
    requires Books(s) && t < |s.flights| && s.flights[t].Clearing?
    ensures var k := s.flights[t].k;
            k < |s.blocks| && s.done[k] == s.size && k !in s.nulled && k !in s.released
            && k in s.index.live && s.index.live[k] == s.blocks[k]
  {
    var k := s.flights[t].k;
    SumAtLeast(Clears(k), s.flights, t);
    assert StageOk(s.size, s.nulled, s.released, s.done, s.flights, k);
  }

  lemma FreeingIsOwned<T>(s: State<T>, t: nat)
    requires Books(s) && t < |s.flights| && s.flights[t].Freeing?
    ensures var f := s.flights[t];
            f.k < |s.blocks| && f.b == s.blocks[f.k] && f.k in s.nulled && f.k !in s.released
            && f.b in s.home && s.home[f.b] == Some(f.k)
  {
    var k := s.flights[t].k;
    SumAtLeast(Frees(k), s.flights, t);
    assert StageOk(s.size, s.nulled, s.released, s.done, s.flights, k);
    assert FlightOk(s.size, s.index, s.blocks, s.head, s.flights[t]);
  }

  /** The section of a flight: its unfinished elements in the block it is at. */
  function SectionEnd(i: nat, stop: nat, size: nat): nat
    requires size > 0
  {
    var end := Base(Number(i, size) + 1, size);
    if stop < end then stop else end
  }

  /** A live block below `stop` is found in a header that covers `stop`: its slot has its number and the block. */
  lemma FoundAtSlot(index: View, j: nat, slot: nat, k: nat, stop: nat, size: nat)
    requires Ok(index) && size > 0 && Covered(index, j, stop, size) && k < Blocks(stop, size)
    requires SlotIs(index, j, slot, k) && k in index.live && k < index.count
    ensures var e := index.tables[j][slot];
            e < |index.key| == |index.value| && index.key[e] == Some(k) && index.value[e] == Some(index.live[k])
  {
    assert j + 1 == |index.tables| ==> NewestHeaderOk(index);
    LookupFindsBlock(index, j, k);
  }

  /** What a reader knows before it looks. */
  lemma ReaderIsCovered<T>(s: State<T>, t: nat)
    requires Books(s) && t < |s.flights| && s.flights[t].Reading?
    ensures var f := s.flights[t];
            var k := Number(f.index, s.size);
            && Covered(s.index, f.j, f.stop, s.size) && SlotIs(s.index, f.j, f.slot, k) && k < Blocks(f.stop, s.size)
            && f.index < f.stop <= s.head
            && k < |s.blocks| && k !in s.nulled && k !in s.released && s.done[k] < s.size
            && k in s.index.live && s.index.live[k] == s.blocks[k]
  {
    var f := s.flights[t];
    assert FlightOk(s.size, s.index, s.blocks, s.head, f);
    HeadOfFlightIsLive(s, t);
    NumberMonotone(f.index, f.stop - 1, s.size);
  }

  /** The entry a reader looks at holds the block of its next element. */
  lemma ReaderFindsBlock<T>(s: State<T>, t: nat)
    requires Inv(s) && t < |s.flights| && s.flights[t].Reading?
    ensures var f := s.flights[t];
            && f.j < |s.index.tables| && f.slot < |s.index.tables[f.j]|
            && var e, k := s.index.tables[f.j][f.slot], Number(f.index, s.size);
            && e < |s.index.key| == |s.index.value| && s.index.key[e] == Some(k)
            && k < |s.blocks| && s.index.value[e] == Some(s.blocks[k])
  {
    var f := s.flights[t];
    ReaderIsCovered(s, t);
    FoundAtSlot(s.index, f.j, f.slot, Number(f.index, s.size), f.stop, s.size);
  }

  lemma CellHoldsItem<T>(s: State<T>, i: nat)
    requires Books(s) && i < |s.items| && Number(i, s.size) < |s.blocks| && Number(i, s.size) !in s.released
    ensures CellOk(s.size, s.cells, s.blocks[Number(i, s.size)], i, s.items[i]) && s.blocks[Number(i, s.size)] in s.home
  {
    assert ItemOk(s.size, s.cells, s.items, s.blocks, s.released, i);
  }

  lemma SectionBounds(i: nat, stop: nat, size: nat)
    requires size > 0 && i < stop
    ensures i < SectionEnd(i, stop, size) <= stop
    ensures Base(Number(i, size), size) <= i && SectionEnd(i, stop, size) <= Base(Number(i, size), size) + size
    ensures SectionEnd(i, stop, size) < stop ==> SectionEnd(i, stop, size) == Base(Number(i, size) + 1, size)
  {
    NumberBounds(i, size);
    BaseStep(Number(i, size), size);
  }

  /**
   What a consumer reads: every element i of the section it is at is in the cell it looks at,
   the i-th element ever enqueued.
   */
  lemma ReaderGetsItem<T>(s: State<T>, t: nat, i: nat)
    requires Inv(s) && t < |s.flights| && s.flights[t].Reading?
    requires s.flights[t].index <= i < SectionEnd(s.flights[t].index, s.flights[t].stop, s.size)
    ensures var f := s.flights[t];
            && f.j < |s.index.tables| && f.slot < |s.index.tables[f.j]|
            && s.index.tables[f.j][f.slot] < |s.index.value| && i < |s.items|
            && s.index.value[s.index.tables[f.j][f.slot]].Some?
            && var b := s.index.value[s.index.tables[f.j][f.slot]].value;
            && b in s.home && (b, Offset(i, s.size)) in s.cells && s.cells[(b, Offset(i, s.size))] == s.items[i]
  {
    var f := s.flights[t];
    ReaderFindsBlock(s, t);
    ReaderIsCovered(s, t);
    SectionBounds(f.index, f.stop, s.size);
    NumberUnique(i, Number(f.index, s.size), s.size);
    CellHoldsItem(s, i);
  }
}
