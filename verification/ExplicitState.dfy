/**
 An explicit producer's sub-queue as seen by its consumers, one step per atomic access.

 The producer keeps a ring of blocks. Block number k holds the elements k * size onwards;
 the last `slots` block numbers are those of the ring, and a block is used again for the
 next number only when all its elements have been dequeued. The block index is a circular
 array of (base, block) entries; when it is full, a header twice as large gets a copy, and
 consumers may still use the old one.

 What a failed bulk enqueue leaves behind is the subject of module ExplicitBulk.
 */
module ExplicitState {
  import opened Sums
  import opened BlockNumbers
  import opened BlockIndex
  import opened Remainders

  datatype Entry = Entry(number: nat, block: Block)

  datatype Flight =
    | Idle
    | Claimed(index: nat, stop: nat)                        // head.fetch_add has been done
    | HasHeader(j: nat, index: nat, stop: nat)              // the header pointer is loaded
    | HasFront(j: nat, front: nat, index: nat, stop: nat)   // its front is loaded
    | Reading(j: nat, slot: nat, index: nat, stop: nat)     // the slot is known

  datatype State<T> = State(
    size: nat,                                              // BLOCK_SIZE
    tables: seq<seq<Option<Entry>>>, fronts: seq<int>,      // the headers, oldest first
    shift: seq<int>, seen: seq<nat>,
    slots: nat,                                             // pr_blockIndexSlotsUsed
    cells: map<(Block, nat), T>, counter: map<Block, nat>, next: map<Block, Block>,
    tailBlock: Option<Block>, head: nat, flights: seq<Flight>,
    items: seq<T>, blocks: seq<Block>, published: nat, done: seq<nat>,
    kept: nat)                                              // the blocks before this number are all dequeued

  function Start(f: Flight): nat {
    if f.Idle? then 0 else f.index
  }

  function Stop(f: Flight): nat {
    if f.Idle? then 0 else f.stop
  }

  /** How many claimed and unfinished elements of block k a flight has. */
  ghost function Units(k: nat, size: nat): Flight -> nat {
    (f: Flight) => Overlap(Start(f), Stop(f), k, size)
  }

  // ---------- the index ----------

  ghost predicate KeyedBySlot(table: seq<Option<Entry>>, shift: int, p: nat)
    requires p < |table|
  {
    table[p].Some? ==> Slot(|table|, shift, table[p].value.number) == p
  }

  /** An entry is always of a block whose slot it is in. */
  ghost predicate EntriesOk(table: seq<Option<Entry>>, shift: int) {
    forall p: nat :: p < |table| ==> KeyedBySlot(table, shift, p)
  }

  ghost predicate HasEntry(table: seq<Option<Entry>>, shift: int, k: nat, b: Block)
    requires |table| > 0
  {
    table[Slot(|table|, shift, k)] == Some(Entry(k, b))
  }

  /** The blocks from number lo up to hi are in the table. */
  ghost predicate Maps(table: seq<Option<Entry>>, shift: int, blocks: seq<Block>, lo: nat, hi: nat)
    requires |table| > 0 && hi <= |blocks|
  {
    forall k: nat :: lo <= k < hi ==> HasEntry(table, shift, k, blocks[k])
  }

  ghost predicate FrontOk(table: seq<Option<Entry>>, front: int) {
    0 <= front < |table| && table[front].Some?
  }

  /** The number of the oldest block in the ring. */
  function Oldest<T>(s: State<T>): int {
    |s.blocks| - s.slots
  }

  ghost predicate HeaderOk<T>(s: State<T>, j: nat)
    requires j < |s.tables| == |s.fronts| == |s.shift| == |s.seen|
  {
    && |s.tables[j]| > 0 && EntriesOk(s.tables[j], s.shift[j])
    && (if j + 1 == |s.tables| then
          && Maps(s.tables[j], s.shift[j], s.blocks, s.kept, |s.blocks|)
          && (s.published > 0 ==> FrontOk(s.tables[j], s.fronts[j]))
          && s.slots <= |s.tables[j]|
        else
          && s.seen[j] <= s.published <= |s.blocks|
          && Maps(s.tables[j], s.shift[j], s.blocks, s.kept, s.seen[j])
          && (s.seen[j] > 0 ==> FrontOk(s.tables[j], s.fronts[j])))
  }

  ghost predicate IndexOk<T>(s: State<T>) {
    && |s.tables| == |s.fronts| == |s.shift| == |s.seen|
    && (forall j: nat :: j < |s.tables| ==> HeaderOk(s, j))
    && (s.tables == [] ==> s.blocks == [])
  }

  // ---------- the books ----------

  ghost predicate CountOk<T>(s: State<T>, k: nat)
    requires k < |s.done| && k < |s.blocks|
  {
    && s.done[k] + Sum(Units(k, s.size), s.flights) == Overlap(0, s.head, k, s.size)
    && (k >= Oldest(s) ==> s.blocks[k] in s.counter && s.counter[s.blocks[k]] == s.done[k])
    && (k < s.kept ==> s.done[k] == s.size)
  }

  ghost predicate CountsOk<T>(s: State<T>) {
    && |s.done| == s.published <= |s.blocks| && Oldest(s) <= s.kept <= s.published
    && forall k: nat :: k < s.published ==> CountOk(s, k)
  }

  /** The blocks of the ring are different ones. */
  ghost predicate RingOk(blocks: seq<Block>, slots: nat) {
    && slots <= |blocks| && (blocks != [] ==> slots > 0)
    && forall k, m: nat :: |blocks| - slots <= k < m < |blocks| ==> blocks[k] != blocks[m]
  }

  ghost predicate Covered<T>(s: State<T>, j: nat, stop: nat)
    requires s.size > 0
  {
    j < |s.tables| && j < |s.seen| && (j + 1 == |s.tables| || Blocks(stop, s.size) <= s.seen[j])
  }

  ghost predicate FlightOk<T>(s: State<T>, f: Flight)
    requires s.size > 0
  {
    && Start(f) <= Stop(f) <= s.head
    && (f.Idle? || f.index < f.stop)
    && (f.Idle? || f.Claimed? || Covered(s, f.j, f.stop))
    && (f.HasFront? ==> FrontOk(s.tables[f.j], f.front))
    && (f.Reading? ==> f.j < |s.shift| && f.slot < |s.tables[f.j]|
                       && f.slot == Slot(|s.tables[f.j]|, s.shift[f.j], Number(f.index, s.size)))
  }

  ghost predicate FlightsOk<T>(s: State<T>)
    requires s.size > 0
  {
    forall t :: 0 <= t < |s.flights| ==> FlightOk(s, s.flights[t])
  }

  /** The cell of element i, unless its block has been dequeued. */
  ghost predicate ItemOk<T>(s: State<T>, i: nat)
    requires s.size > 0 && i < |s.items|
  {
    var k := Number(i, s.size);
    s.kept <= k < |s.blocks| ==>
      (s.blocks[k], Offset(i, s.size)) in s.cells && s.cells[(s.blocks[k], Offset(i, s.size))] == s.items[i]
  }

  ghost predicate CellsOk<T>(s: State<T>)
    requires s.size > 0
  {
    forall i: nat :: i < |s.items| ==> ItemOk(s, i)
  }

  ghost predicate Inv<T>(s: State<T>) {
    && s.size > 0 && s.head <= |s.items| <= Base(s.published, s.size)
    && IndexOk(s) && RingOk(s.blocks, s.slots) && CountsOk(s) && FlightsOk(s) && CellsOk(s)
  }

  // ---------- what a flight can rely on ----------

  lemma SizeOfInv<T>(s: State<T>)
    requires Inv(s)
    ensures s.size > 0
  {
  }

  /** Nothing of a block that is not published has been claimed. */
  lemma DoneIsPublished<T>(s: State<T>)
    requires Inv(s)
    ensures |s.done| == s.published <= |s.blocks| && Blocks(s.head, s.size) <= |s.done|
  {
    if s.head > 0 {
      NumberBelow(s.head - 1, s.published, s.size);
    }
  }

  lemma CounterIsDone<T>(s: State<T>, k: nat)
    requires Inv(s) && Oldest(s) <= k < s.published
    ensures k < |s.done| && k < |s.blocks| && s.blocks[k] in s.counter && s.counter[s.blocks[k]] == s.done[k]
  {
    assert CountOk(s, k);
  }

  /** A block with a claimed and unfinished element is in the ring, and does not look empty. */
  lemma UnfinishedIsInRing<T>(s: State<T>, t: nat, k: nat)
    requires Inv(s) && t < |s.flights| && Units(k, s.size)(s.flights[t]) > 0
    ensures k < s.published <= |s.blocks| && Oldest(s) <= s.kept <= k && s.done[k] + Units(k, s.size)(s.flights[t]) <= s.size
    ensures s.blocks[k] in s.counter && s.counter[s.blocks[k]] == s.done[k] < s.size
  {
    hide IndexOk, RingOk, CellsOk;
    var f := s.flights[t];
    assert FlightOk(s, f);
    if k >= s.published {
      BaseOrder(s.published, k, s.size);
    }
    SumAtLeast(Units(k, s.size), s.flights, t);
    assert CountOk(s, k);
  }

  lemma BaseOrder(k: nat, m: nat, size: nat)
    requires k <= m
    ensures Base(k, size) <= Base(m, size)
  {
    if k < m {
      BaseMonotone(k, m, size);
    }
  }

  /** The section of a flight: its unfinished elements in the block it is at. */
  function SectionEnd(i: nat, stop: nat, size: nat): nat
    requires size > 0
  {
    var end := Base(Number(i, size) + 1, size);
    if stop < end then stop else end
  }

  lemma SectionBounds(i: nat, stop: nat, size: nat)
    requires size > 0 && i < stop
    ensures i < SectionEnd(i, stop, size) <= stop
    ensures Base(Number(i, size), size) <= i && SectionEnd(i, stop, size) <= Base(Number(i, size), size) + size
    ensures SectionEnd(i, stop, size) < stop ==> Number(SectionEnd(i, stop, size), size) == Number(i, size) + 1
  {
    NumberBounds(i, size);
    BaseStep(Number(i, size), size);
    NumberOfBase(Number(i, size) + 1, size);
  }

  /** Where an active flight is. */
  lemma FlightFacts<T>(s: State<T>, t: nat)
    requires Inv(s) && t < |s.flights| && !s.flights[t].Idle?
    ensures var f := s.flights[t];
            var k := Number(f.index, s.size);
            && f.index < f.stop <= s.head && k < Blocks(f.stop, s.size) <= s.published <= |s.blocks|
            && k < s.published && Oldest(s) <= s.kept <= k && s.done[k] < s.size
            && s.blocks[k] in s.counter && s.counter[s.blocks[k]] == s.done[k]
            && FlightOk(s, f)
  {
    hide IndexOk, RingOk, CellsOk, CountsOk;
    var f := s.flights[t];
    assert FlightOk(s, f);
    NumberBounds(f.index, s.size);
    NumberMonotone(f.index, f.stop - 1, s.size);
    UnfinishedIsInRing(s, t, Number(f.index, s.size));
    NumberBelow(f.stop - 1, s.published, s.size);
  }

  /** The entry a reader looks at has the block of its next element. */
  lemma ReaderFindsBlock<T>(s: State<T>, t: nat)
    requires Inv(s) && t < |s.flights| && s.flights[t].Reading?
    ensures var f := s.flights[t];
            var k := Number(f.index, s.size);
            && f.j < |s.tables| && f.slot < |s.tables[f.j]| && k < |s.blocks|
            && s.tables[f.j][f.slot] == Some(Entry(k, s.blocks[k]))
  {
    hide RingOk, CellsOk, CountsOk, FlightsOk;
    FlightFacts(s, t);
    var f := s.flights[t];
    assert HeaderOk(s, f.j);
    assert HasEntry(s.tables[f.j], s.shift[f.j], Number(f.index, s.size), s.blocks[Number(f.index, s.size)]);
  }

  lemma CellHoldsItem<T>(s: State<T>, i: nat)
    requires Inv(s) && i < |s.items| && s.kept <= Number(i, s.size)
    ensures Number(i, s.size) < |s.blocks|
    ensures var b := s.blocks[Number(i, s.size)];
            (b, Offset(i, s.size)) in s.cells && s.cells[(b, Offset(i, s.size))] == s.items[i]
  {
    hide RingOk, IndexOk, CountOk, FlightsOk;
    assert ItemOk(s, i);
    NumberBelow(i, s.published, s.size);
  }

  /**
   What a consumer reads: every element i of the section it is at is in the cell it looks at,
   the i-th element ever enqueued.
   */
  lemma ReaderGetsItem<T>(s: State<T>, t: nat, i: nat)
    requires Inv(s) && t < |s.flights| && s.flights[t].Reading?
    requires s.flights[t].index <= i < SectionEnd(s.flights[t].index, s.flights[t].stop, s.size)
    ensures var f := s.flights[t];
            && f.j < |s.tables| && f.slot < |s.tables[f.j]| && s.tables[f.j][f.slot].Some? && i < |s.items|
            && var b := s.tables[f.j][f.slot].value.block;
            && (b, Offset(i, s.size)) in s.cells && s.cells[(b, Offset(i, s.size))] == s.items[i]
  {
    hide IndexOk, RingOk, CellsOk, CountsOk, FlightsOk;
    var f := s.flights[t];
    FlightFacts(s, t);
    ReaderFindsBlock(s, t);
    SectionBounds(f.index, f.stop, s.size);
    NumberUnique(i, Number(f.index, s.size), s.size);
    CellHoldsItem(s, i);
  }

  // ---------- the consumers' steps ----------

  function Go<T>(s: State<T>, t: nat, f: Flight): State<T>
    requires t < |s.flights|
  {
    s.(flights := s.flights[t := f])
  }

  predicate CanStep<T>(s: State<T>, t: nat, n: nat) {
    && s.size > 0 && t < |s.flights|
    && match s.flights[t]
       case Idle => 0 < n && s.head + n <= |s.items|
       case Claimed(_, _) => s.tables != []
       case HasHeader(j, _, _) => j < |s.fronts| && s.fronts[j] >= 0
       case HasFront(j, front, _, _) => j < |s.tables| && front < |s.tables[j]| && s.tables[j][front].Some?
       case Reading(j, slot, i, stop) =>
         && j < |s.tables| && slot < |s.tables[j]| && s.tables[j][slot].Some? && s.tables[j][slot].value.block in s.counter
         && Number(i, s.size) < |s.done| && i < stop
  }

  function Claim<T>(s: State<T>, t: nat, n: nat): State<T>
    requires CanStep(s, t, n) && s.flights[t].Idle?
  {
    Go(s, t, Claimed(s.head, s.head + n)).(head := s.head + n)
  }

  /** The base at the front slot, and the offset from it, give the slot. */
  function Locate<T>(s: State<T>, t: nat): State<T>
    requires CanStep(s, t, 0) && s.flights[t].HasFront?
  {
    var f := s.flights[t];
    var table := s.tables[f.j];
    var offset := Number(f.index, s.size) - table[f.front].value.number;
    Go(s, t, Reading(f.j, (f.front + offset) % |table|, f.index, f.stop))
  }

  /** set_many_empty on the section just read. */
  function Finish<T>(s: State<T>, t: nat): State<T>
    requires CanStep(s, t, 0) && s.flights[t].Reading?
  {
    var f := s.flights[t];
    var b, k := s.tables[f.j][f.slot].value.block, Number(f.index, s.size);
    var end := SectionEnd(f.index, f.stop, s.size);
    SectionBounds(f.index, f.stop, s.size);
    var s' := s.(counter := s.counter[b := s.counter[b] + (end - f.index)], done := s.done[k := s.done[k] + (end - f.index)]);
    Go(s', t, if end == f.stop then Idle else Reading(f.j, (f.slot + 1) % |s.tables[f.j]|, end, f.stop))
  }

  function StepOf<T>(s: State<T>, t: nat, n: nat): State<T>
    requires CanStep(s, t, n)
  {
    match s.flights[t]
    case Idle => Claim(s, t, n)
    case Claimed(i, stop) => Go(s, t, HasHeader(|s.tables| - 1, i, stop))
    case HasHeader(j, i, stop) => Go(s, t, HasFront(j, s.fronts[j], i, stop))
    case HasFront(_, _, _, _) => Locate(s, t)
    case Reading(_, _, _, _) => Finish(s, t)
  }

  /** An active consumer is never stuck. */
  lemma NeverStuck<T>(s: State<T>, t: nat, n: nat)
    requires Inv(s) && t < |s.flights| && !s.flights[t].Idle?
    ensures CanStep(s, t, n)
  {
    hide RingOk, CellsOk, FlightsOk;
    FlightFacts(s, t);
    var f := s.flights[t];
    if f.HasHeader? {
      assert HeaderOk(s, f.j);
    } else if f.Reading? {
      ReaderFindsBlock(s, t);
    }
  }

  lemma MovedKeepsInv<T>(s: State<T>, t: nat, f: Flight)
    requires Inv(s) && t < |s.flights| && FlightOk(s, f)
    requires Start(f) == Start(s.flights[t]) && Stop(f) == Stop(s.flights[t])
    ensures Inv(Go(s, t, f))
  {
    hide RingOk, IndexOk;
    var s' := Go(s, t, f);
    IndexFramed(s, s');
    forall k: nat | k < s.published ensures CountOk(s', k) {
      assert CountOk(s, k);
      SumUpdate(Units(k, s.size), s.flights, t, f);
    }
    forall i: nat | i < |s.items| ensures ItemOk(s', i) {
      assert ItemOk(s, i);
    }
    forall u | 0 <= u < |s.flights| ensures FlightOk(s', s'.flights[u]) {
      assert FlightOk(s, s.flights[u]);
    }
  }

  /** The index does not depend on the rest. */
  lemma IndexFramed<T>(s: State<T>, s': State<T>)
    requires IndexOk(s) && s'.tables == s.tables && s'.fronts == s.fronts && s'.shift == s.shift && s'.seen == s.seen
    requires s'.blocks == s.blocks && s'.slots == s.slots && s'.published == s.published && s'.kept == s.kept
    ensures IndexOk(s')
  {
    forall j: nat | j < |s'.tables| ensures HeaderOk(s', j) {
      assert HeaderOk(s, j);
    }
  }

  lemma ClaimKeepsInv<T>(s: State<T>, t: nat, n: nat)
    requires Inv(s) && CanStep(s, t, n) && s.flights[t].Idle?
    ensures Inv(Claim(s, t, n))
  {
    hide RingOk, IndexOk;
    var s' := Claim(s, t, n);
    IndexFramed(s, s');
    forall k: nat | k < s.published ensures CountOk(s', k) {
      assert CountOk(s, k);
      SumUpdate(Units(k, s.size), s.flights, t, s'.flights[t]);
      OverlapSplit(0, s.head, s'.head, k, s.size);
    }
    forall i: nat | i < |s.items| ensures ItemOk(s', i) {
      assert ItemOk(s, i);
    }
    forall u | 0 <= u < |s.flights| ensures FlightOk(s', s'.flights[u]) {
      assert FlightOk(s, s.flights[u]);
    }
  }

  lemma LocateKeepsInv<T>(s: State<T>, t: nat)
    requires Inv(s) && CanStep(s, t, 0) && s.flights[t].HasFront?
    ensures Inv(Locate(s, t))
  {
    hide RingOk, CellsOk, CountsOk, FlightsOk;
    FlightFacts(s, t);
    var f := s.flights[t];
    assert HeaderOk(s, f.j);
    assert KeyedBySlot(s.tables[f.j], s.shift[f.j], f.front);
    OffsetIsExact(|s.tables[f.j]|, s.shift[f.j], f.front, s.tables[f.j][f.front].value.number, Number(f.index, s.size));
    MovedKeepsInv(s, t, Locate(s, t).flights[t]);
  }

  lemma LoadKeepsInv<T>(s: State<T>, t: nat)
    requires Inv(s) && CanStep(s, t, 0) && (s.flights[t].Claimed? || s.flights[t].HasHeader?)
    ensures Inv(StepOf(s, t, 0))
  {
    hide RingOk, CellsOk, CountsOk, FlightsOk, Inv;
    FlightFacts(s, t);
    SizeOfInv(s);
    var f := s.flights[t];
    HeaderOfInv(s, if f.Claimed? then |s.tables| - 1 else f.j);
    MovedKeepsInv(s, t, StepOf(s, t, 0).flights[t]);
  }

  lemma HeaderOfInv<T>(s: State<T>, j: nat)
    requires Inv(s) && j < |s.tables|
    ensures |s.tables| == |s.fronts| == |s.shift| == |s.seen| && HeaderOk(s, j)
  {
  }

  /** The flight after its section has just the section less. */
  lemma FinishedUnits<T>(s: State<T>, t: nat, k: nat)
    requires CanStep(s, t, 0) && s.flights[t].Reading?
    ensures var f, f' := s.flights[t], Finish(s, t).flights[t];
            var n := SectionEnd(f.index, f.stop, s.size) - f.index;
            Units(k, s.size)(f) == Units(k, s.size)(f') + (if k == Number(f.index, s.size) then n else 0)
  {
    var f := s.flights[t];
    var end := SectionEnd(f.index, f.stop, s.size);
    SectionBounds(f.index, f.stop, s.size);
    OverlapSplit(f.index, end, f.stop, k, s.size);
    OverlapInside(f.index, end, Number(f.index, s.size), k, s.size);
  }

  lemma FollowingSlot(capacity: nat, shift: int, k: nat)
    requires capacity > 0
    ensures (Slot(capacity, shift, k) + 1) % capacity == Slot(capacity, shift, k + 1)
  {
    RemainderLeft(k + shift, 1, capacity);
  }

  lemma FinishedFlight<T>(s: State<T>, t: nat)
    requires Inv(s) && CanStep(s, t, 0) && s.flights[t].Reading?
    ensures FlightOk(s, Finish(s, t).flights[t])
  {
    hide Inv, Base, Number, Blocks, Slot;
    FlightFacts(s, t);
    var f := s.flights[t];
    SectionBounds(f.index, f.stop, s.size);
    FollowingSlot(|s.tables[f.j]|, s.shift[f.j], Number(f.index, s.size));
  }

  lemma FinishedCounts<T>(s: State<T>, t: nat)
    requires Inv(s) && CanStep(s, t, 0) && s.flights[t].Reading?
    ensures CountsOk(Finish(s, t))
  {
    hide CellsOk, FlightsOk, IndexOk;
    var f, s' := s.flights[t], Finish(s, t);
    var k := Number(f.index, s.size);
    ReaderFindsBlock(s, t);
    FlightFacts(s, t);
    forall m: nat | m < s'.published ensures CountOk(s', m) {
      assert CountOk(s, m);
      FinishedUnits(s, t, m);
      SumUpdate(Units(m, s.size), s.flights, t, s'.flights[t]);
      assert m >= Oldest(s) && m != k ==> s.blocks[m] != s.blocks[k];
    }
  }

  lemma FinishKeepsInv<T>(s: State<T>, t: nat)
    requires Inv(s) && CanStep(s, t, 0) && s.flights[t].Reading?
    ensures Inv(Finish(s, t))
  {
    hide RingOk, IndexOk, CountsOk;
    var s' := Finish(s, t);
    FinishedCounts(s, t);
    FinishedFlight(s, t);
    IndexFramed(s, s');
    forall i: nat | i < |s.items| ensures ItemOk(s', i) {
      assert ItemOk(s, i);
    }
    forall u | 0 <= u < |s.flights| ensures FlightOk(s', s'.flights[u]) {
      assert FlightOk(s, s.flights[u]);
    }
  }

  lemma StepKeepsInv<T>(s: State<T>, t: nat, n: nat)
    requires Inv(s) && CanStep(s, t, n)
    ensures Inv(StepOf(s, t, n))
  {
    hide Inv;
    var f := s.flights[t];
    if f.Idle? {
      ClaimKeepsInv(s, t, n);
    } else if f.HasFront? {
      LocateKeepsInv(s, t);
    } else if f.Reading? {
      FinishKeepsInv(s, t);
    } else {
      LoadKeepsInv(s, t);
    }
  }

  // ---------- what consumers leave alone ----------

  /** s' comes from s by steps of consumers: only the head, the flights and the counters of used blocks move. */
  ghost predicate ByConsumers<T>(s: State<T>, s': State<T>) {
    && s' == s.(counter := s'.counter, head := s'.head, flights := s'.flights, done := s'.done)
    && s.head <= s'.head && |s.flights| == |s'.flights| && |s.done| == |s'.done|
    && (forall b :: b in s.counter ==> b in s'.counter)
    && (forall k: nat :: s.published <= k < |s.blocks| && Oldest(s) <= k && s.blocks[k] in s.counter ==>
          s'.counter[s.blocks[k]] == s.counter[s.blocks[k]])
    && (forall k: nat :: k < |s.done| ==> s.done[k] <= s'.done[k])
  }

  lemma ByConsumersChains<T>(a: State<T>, b: State<T>, c: State<T>)
    requires ByConsumers(a, b) && ByConsumers(b, c)
    ensures ByConsumers(a, c)
  {
  }

  lemma FinishIsByConsumers<T>(s: State<T>, t: nat)
    requires Inv(s) && CanStep(s, t, 0) && s.flights[t].Reading?
    ensures ByConsumers(s, Finish(s, t))
  {
    hide IndexOk, CellsOk, FlightsOk;
    ReaderFindsBlock(s, t);
    FlightFacts(s, t);
    SectionBounds(s.flights[t].index, s.flights[t].stop, s.size);
    var k := Number(s.flights[t].index, s.size);
    forall m: nat | s.published <= m < |s.blocks| && Oldest(s) <= m ensures s.blocks[m] != s.blocks[k] {
    }
  }

  lemma StepIsByConsumers<T>(s: State<T>, t: nat, n: nat)
    requires Inv(s) && CanStep(s, t, n)
    ensures ByConsumers(s, StepOf(s, t, n))
  {
    hide Inv;
    if s.flights[t].Reading? {
      FinishIsByConsumers(s, t);
    }
  }

  // ---------- progress ----------

  /** The most accesses a consumer has left: 3 to look up its first block, and one for each block, which has an element at least. */
  function AccessesLeft(f: Flight): nat
    requires Start(f) <= Stop(f)
  {
    3 * (Stop(f) - Start(f)) + if f.Claimed? then 3 else if f.HasHeader? then 2 else if f.HasFront? then 1 else 0
  }

  ghost predicate Shrinks<T>(s: State<T>, s': State<T>, t: nat) {
    && t < |s.flights| == |s'.flights| && Start(s.flights[t]) <= Stop(s.flights[t]) && Start(s'.flights[t]) <= Stop(s'.flights[t])
    && AccessesLeft(s'.flights[t]) < AccessesLeft(s.flights[t])
  }

  lemma FinishShrinks<T>(s: State<T>, t: nat)
    requires CanStep(s, t, 0) && s.flights[t].Reading?
    ensures Shrinks(s, Finish(s, t), t)
  {
    hide SectionEnd;
    SectionBounds(s.flights[t].index, s.flights[t].stop, s.size);
  }

  /** Every access brings a consumer nearer to the end of its claim, whatever the others do. */
  lemma AccessesShrink<T>(s: State<T>, t: nat)
    requires Inv(s) && CanStep(s, t, 0) && !s.flights[t].Idle?
    ensures Shrinks(s, StepOf(s, t, 0), t)
  {
    hide IndexOk, RingOk, CountsOk, CellsOk, Finish;
    assert FlightOk(s, s.flights[t]);
    if s.flights[t].Reading? {
      FinishShrinks(s, t);
    }
  }

  lemma FlightRange<T>(s: State<T>, t: nat)
    requires Inv(s) && t < |s.flights|
    ensures Start(s.flights[t]) <= Stop(s.flights[t])
  {
    hide IndexOk, RingOk, CountsOk, CellsOk;
    assert FlightOk(s, s.flights[t]);
  }
}
