/**
 The producer's steps on an explicit sub-queue: each keeps the invariant that the consumers
 rely on.
 */
module ExplicitUpdates {
  import opened Sums
  import opened BlockNumbers
  import opened BlockIndex
  import opened ExplicitState
  import opened Remainders

  function Last<T>(s: State<T>): nat
    requires s.tables != []
  {
    |s.tables| - 1
  }

  /** pr_blockIndexFront: the slot of the next block number. */
  function NextFront<T>(s: State<T>): nat
    requires s.tables != [] && |s.shift| == |s.tables| && |s.tables[Last(s)]| > 0
  {
    Slot(|s.tables[Last(s)]|, s.shift[Last(s)], |s.blocks|)
  }

  /** The newest table with the entry for the next block number. */
  function Entered<T>(s: State<T>, b: Block): seq<seq<Option<Entry>>>
    requires s.tables != [] && |s.shift| == |s.tables| && |s.tables[Last(s)]| > 0
  {
    s.tables[Last(s) := s.tables[Last(s)][NextFront(s) := Some(Entry(|s.blocks|, b))]]
  }

  lemma NewestOfInv<T>(s: State<T>)
    requires Inv(s)
    ensures |s.fronts| == |s.shift| == |s.tables| == |s.seen|
    ensures s.tables != [] ==> |s.tables[Last(s)]| > 0 && HeaderOk(s, Last(s)) && s.slots <= |s.tables[Last(s)]|
    ensures s.slots <= |s.blocks| && s.published <= |s.blocks| && Oldest(s) <= s.kept <= s.published && |s.done| == s.published
    ensures s.tables == [] ==> s.blocks == []
  {
    if s.tables != [] {
      HeaderOfInv(s, Last(s));
    }
  }

  /** An entry for number n spares those of the numbers less than a turn before. */
  lemma EntryKeeps(table: seq<Option<Entry>>, shift: int, n: nat, b: Block, k: nat, c: Block)
    requires |table| > 0 && HasEntry(table, shift, k, c) && k < n < k + |table|
    ensures HasEntry(table[Slot(|table|, shift, n) := Some(Entry(n, b))], shift, k, c)
  {
    if Slot(|table|, shift, n) == Slot(|table|, shift, k) {
      NearAndSameSlot(n, k, shift, |table|);
    }
  }

  lemma EnteredMaps(table: seq<Option<Entry>>, shift: int, blocks: seq<Block>, lo: nat, lo': nat, b: Block)
    requires |table| > 0 && Maps(table, shift, blocks, lo, |blocks|) && lo <= lo' && |blocks| < lo' + |table|
    ensures Maps(table[Slot(|table|, shift, |blocks|) := Some(Entry(|blocks|, b))], shift, blocks + [b], lo', |blocks| + 1)
  {
    var n := |blocks|;
    var table' := table[Slot(|table|, shift, n) := Some(Entry(n, b))];
    forall k: nat | lo' <= k < n + 1 ensures HasEntry(table', shift, k, (blocks + [b])[k]) {
      if k < n {
        assert HasEntry(table, shift, k, blocks[k]);
        EntryKeeps(table, shift, n, b, k, blocks[k]);
      }
    }
  }

  lemma EnteredEntries(table: seq<Option<Entry>>, shift: int, n: nat, b: Block)
    requires |table| > 0 && EntriesOk(table, shift)
    ensures EntriesOk(table[Slot(|table|, shift, n) := Some(Entry(n, b))], shift)
  {
    var table' := table[Slot(|table|, shift, n) := Some(Entry(n, b))];
    forall p: nat | p < |table'| ensures KeyedBySlot(table', shift, p) {
      assert KeyedBySlot(table, shift, p);
    }
  }

  lemma MapsLess(table: seq<Option<Entry>>, shift: int, blocks: seq<Block>, blocks': seq<Block>, lo: nat, lo': nat, hi: nat)
    requires |table| > 0 && hi <= |blocks| && blocks <= blocks' && lo <= lo' && Maps(table, shift, blocks, lo, hi)
    ensures Maps(table, shift, blocks', lo', hi)
  {
    forall k: nat | lo' <= k < hi ensures HasEntry(table, shift, k, blocks'[k]) {
      assert HasEntry(table, shift, k, blocks[k]);
    }
  }

  /** One more block number, for block b: a used block of the ring again (slots as before), or a new one. */
  function Extend<T>(s: State<T>, b: Block, slots: nat): State<T>
    requires s.tables != [] && |s.shift| == |s.tables| && |s.tables[Last(s)]| > 0
  {
    var oldest := |s.blocks| + 1 - slots;
    s.(tables := Entered(s, b), blocks := s.blocks + [b], slots := slots, tailBlock := Some(b),
       kept := if oldest > s.kept then oldest else s.kept)
  }

  lemma ExtendKeepsIndex<T>(s: State<T>, b: Block, slots: nat)
    requires Inv(s) && s.tables != [] && |s.shift| == |s.tables| && |s.tables[Last(s)]| > 0
    requires s.slots <= slots <= s.slots + 1 && slots <= |s.tables[Last(s)]|
    ensures IndexOk(Extend(s, b, slots))
  {
    hide RingOk, CountsOk, FlightsOk, CellsOk, EntriesOk, Maps;
    NewestOfInv(s);
    var s', n := Extend(s, b, slots), Last(s);
    forall j: nat | j < |s'.tables| ensures HeaderOk(s', j) {
      HeaderOfInv(s, j);
      if j == n {
        EnteredEntries(s.tables[n], s.shift[n], |s.blocks|, b);
        EnteredMaps(s.tables[n], s.shift[n], s.blocks, s.kept, s'.kept, b);
      } else {
        MapsLess(s.tables[j], s.shift[j], s.blocks, s'.blocks, s.kept, s'.kept, s.seen[j]);
      }
    }
  }

  lemma ExtendKeepsFlights<T>(s: State<T>, b: Block, slots: nat)
    requires Inv(s) && s.tables != [] && |s.shift| == |s.tables| && |s.tables[Last(s)]| > 0
    ensures FlightsOk(Extend(s, b, slots))
  {
    hide RingOk, CountsOk, CellsOk, IndexOk;
    var s' := Extend(s, b, slots);
    forall t | 0 <= t < |s'.flights| ensures FlightOk(s', s'.flights[t]) {
      assert FlightOk(s, s.flights[t]);
    }
  }

  lemma ExtendKeepsCells<T>(s: State<T>, b: Block, slots: nat)
    requires Inv(s) && s.tables != [] && |s.shift| == |s.tables| && |s.tables[Last(s)]| > 0
    ensures CellsOk(Extend(s, b, slots))
  {
    hide RingOk, IndexOk, FlightsOk, CountOk;
    var s' := Extend(s, b, slots);
    forall i: nat | i < |s'.items| ensures ItemOk(s', i) {
      assert ItemOk(s, i);
      NumberBelow(i, s.published, s.size);
    }
  }

  // ---------- using the oldest block again ----------

  function Take<T>(s: State<T>): State<T>
    requires s.tables != [] && |s.shift| == |s.tables| && |s.tables[Last(s)]| > 0 && 0 < s.slots <= |s.blocks|
  {
    Extend(s, s.blocks[Oldest(s)], s.slots)
  }

  /** The oldest block's elements have all been dequeued. */
  ghost predicate OldestIsDone<T>(s: State<T>) {
    0 <= Oldest(s) < s.published <= |s.done| && s.done[Oldest(s)] == s.size && Oldest(s) < |s.blocks|
  }

  lemma TakeKeepsInv<T>(s: State<T>)
    requires Inv(s) && s.tables != [] && |s.shift| == |s.tables| && |s.tables[Last(s)]| > 0 && 0 < s.slots <= |s.blocks|
    requires OldestIsDone(s)
    ensures Inv(Take(s))
  {
    hide IndexOk, FlightsOk, CellsOk;
    NewestOfInv(s);
    var s', b := Take(s), s.blocks[Oldest(s)];
    ExtendKeepsIndex(s, b, s.slots);
    ExtendKeepsFlights(s, b, s.slots);
    ExtendKeepsCells(s, b, s.slots);
    forall k: nat | k < s'.published ensures CountOk(s', k) {
      assert CountOk(s, k);
    }
  }

  // ---------- a new block ----------

  /** Block b comes from the pool. */
  function Add<T>(s: State<T>, b: Block, count: nat): State<T>
    requires s.tables != [] && |s.shift| == |s.tables| && |s.tables[Last(s)]| > 0
  {
    Extend(s, b, s.slots + 1).(counter := s.counter[b := count])
  }

  /** The block is not one of the ring. */
  ghost predicate NotInRing<T>(s: State<T>, b: Block) {
    forall k: nat :: Oldest(s) <= k < |s.blocks| ==> s.blocks[k] != b
  }

  lemma AddKeepsInv<T>(s: State<T>, b: Block, count: nat)
    requires Inv(s) && s.tables != [] && |s.shift| == |s.tables| && |s.tables[Last(s)]| > s.slots && NotInRing(s, b)
    ensures Inv(Add(s, b, count))
  {
    hide IndexOk, FlightsOk, CellsOk;
    NewestOfInv(s);
    var s1, s' := Extend(s, b, s.slots + 1), Add(s, b, count);
    ExtendKeepsIndex(s, b, s.slots + 1);
    ExtendKeepsFlights(s, b, s.slots + 1);
    ExtendKeepsCells(s, b, s.slots + 1);
    IndexFramed(s1, s');
    FramedRest(s1, s');
    forall k: nat | k < s'.published ensures CountOk(s', k) {
      assert CountOk(s, k);
    }
  }

  /** Flights and cells do not depend on the counters. */
  lemma FramedRest<T>(s: State<T>, s': State<T>)
    requires s.size > 0 && FlightsOk(s) && CellsOk(s) && s' == s.(counter := s'.counter)
    ensures FlightsOk(s') && CellsOk(s')
  {
    forall t | 0 <= t < |s'.flights| ensures FlightOk(s', s'.flights[t]) {
      assert FlightOk(s, s.flights[t]);
    }
    forall i: nat | i < |s'.items| ensures ItemOk(s', i) {
      assert ItemOk(s, i);
    }
  }

  // ---------- the counter of a block that is to be filled ----------

  function Reset<T>(s: State<T>, k: nat): State<T>
    requires k < |s.blocks|
  {
    s.(counter := s.counter[s.blocks[k] := 0])
  }

  lemma ResetKeepsInv<T>(s: State<T>, k: nat)
    requires Inv(s) && s.published <= k < |s.blocks| && Oldest(s) <= k
    ensures Inv(Reset(s, k))
  {
    hide IndexOk, FlightsOk, CellsOk;
    var s' := Reset(s, k);
    IndexFramed(s, s');
    FramedRest(s, s');
    forall m: nat | m < s'.published ensures CountOk(s', m) {
      assert CountOk(s, m);
      assert Oldest(s) <= m ==> s.blocks[m] != s.blocks[k];
    }
  }

  // ---------- a larger header ----------

  /** The entries of the ring's blocks from slot 0 on, oldest first; twice as many slots. */
  function Copied<T>(s: State<T>, capacity: nat): seq<Option<Entry>>
    requires s.slots <= capacity && s.slots <= |s.blocks|
    requires s.slots > 0 ==> s.tables != [] && |s.shift| == |s.tables| && |s.tables[Last(s)]| > 0
  {
    seq(capacity, (i: nat) => if i < s.slots then s.tables[Last(s)][Slot(|s.tables[Last(s)]|, s.shift[Last(s)], Oldest(s) + i)]
                              else None)
  }

  /** new_block_index: the header with `exposed` slots visible to consumers. */
  function Enlarge<T>(s: State<T>, capacity: nat, exposed: nat): State<T>
    requires s.slots <= capacity && s.slots <= |s.blocks| && |s.seen| == |s.tables|
    requires s.slots > 0 ==> s.tables != [] && |s.shift| == |s.tables| && |s.tables[Last(s)]| > 0
  {
    s.(tables := s.tables + [Copied(s, capacity)], fronts := s.fronts + [exposed - 1], shift := s.shift + [-Oldest(s)],
       seen := (if s.tables == [] then [] else s.seen[|s.seen| - 1 := s.published]) + [0])
  }

  lemma CopiedIsOk<T>(s: State<T>, capacity: nat)
    requires Inv(s) && s.slots < capacity && s.slots <= |s.blocks| && s.kept == Oldest(s)
    requires s.slots > 0 ==> s.tables != [] && |s.shift| == |s.tables| && |s.tables[Last(s)]| > 0
    ensures EntriesOk(Copied(s, capacity), -Oldest(s)) && Maps(Copied(s, capacity), -Oldest(s), s.blocks, s.kept, |s.blocks|)
    ensures forall p :: 0 <= p < s.slots ==> Copied(s, capacity)[p].Some?
  {
    hide RingOk, CountsOk, FlightsOk, CellsOk, IndexOk;
    NewestOfInv(s);
    var table, shift := Copied(s, capacity), -Oldest(s);
    forall p: nat | p < s.slots ensures table[p] == Some(Entry(Oldest(s) + p, s.blocks[Oldest(s) + p])) {
      assert HasEntry(s.tables[Last(s)], s.shift[Last(s)], Oldest(s) + p, s.blocks[Oldest(s) + p]);
    }
    forall p: nat | p < capacity ensures KeyedBySlot(table, shift, p) {
      if p < s.slots {
        SmallRemainder(p, capacity);
      }
    }
    forall k: nat | s.kept <= k < |s.blocks| ensures HasEntry(table, shift, k, s.blocks[k]) {
      SmallRemainder(k - Oldest(s), capacity);
    }
  }

  lemma EnlargeKeepsIndex<T>(s: State<T>, capacity: nat, exposed: nat)
    requires Inv(s) && s.slots < capacity && s.slots <= |s.blocks| && s.kept == Oldest(s) && |s.seen| == |s.tables|
    requires s.slots > 0 ==> s.tables != [] && |s.shift| == |s.tables| && |s.tables[Last(s)]| > 0
    requires exposed <= s.slots && (s.published > 0 ==> exposed > 0)
    ensures IndexOk(Enlarge(s, capacity, exposed))
  {
    hide RingOk, CountsOk, FlightsOk, CellsOk, EntriesOk, Maps, Copied;
    NewestOfInv(s);
    CopiedLength(s, capacity);
    CopiedIsOk(s, capacity);
    var s' := Enlarge(s, capacity, exposed);
    forall j: nat | j < |s'.tables| ensures HeaderOk(s', j) {
      if j < |s.tables| {
        HeaderOfInv(s, j);
        MapsUpTo(s.tables[j], s.shift[j], s.blocks, s.kept, if j == Last(s) then |s.blocks| else s.seen[j], s'.seen[j]);
      }
    }
  }

  lemma CopiedLength<T>(s: State<T>, capacity: nat)
    requires s.slots <= capacity && s.slots <= |s.blocks|
    requires s.slots > 0 ==> s.tables != [] && |s.shift| == |s.tables| && |s.tables[Last(s)]| > 0
    ensures |Copied(s, capacity)| == capacity
  {
  }

  lemma MapsUpTo(table: seq<Option<Entry>>, shift: int, blocks: seq<Block>, lo: nat, hi: nat, hi': nat)
    requires |table| > 0 && hi' <= hi <= |blocks| && Maps(table, shift, blocks, lo, hi)
    ensures Maps(table, shift, blocks, lo, hi')
  {
  }

  lemma EnlargeKeepsInv<T>(s: State<T>, capacity: nat, exposed: nat)
    requires Inv(s) && s.slots < capacity && s.slots <= |s.blocks| && s.kept == Oldest(s) && |s.seen| == |s.tables|
    requires s.slots > 0 ==> s.tables != [] && |s.shift| == |s.tables| && |s.tables[Last(s)]| > 0
    requires exposed <= s.slots && (s.published > 0 ==> exposed > 0)
    ensures Inv(Enlarge(s, capacity, exposed))
  {
    hide RingOk, Copied, IndexOk;
    NewestOfInv(s);
    var s' := Enlarge(s, capacity, exposed);
    EnlargeKeepsIndex(s, capacity, exposed);
    forall k: nat | k < s'.published ensures CountOk(s', k) {
      assert CountOk(s, k);
    }
    forall i: nat | i < |s'.items| ensures ItemOk(s', i) {
      assert ItemOk(s, i);
    }
    EnlargeKeepsFlights(s, capacity, exposed);
  }

  lemma EnlargeKeepsFlights<T>(s: State<T>, capacity: nat, exposed: nat)
    requires Inv(s) && s.slots <= capacity && s.slots <= |s.blocks| && |s.seen| == |s.tables| && |s.shift| == |s.tables|
    requires s.slots > 0 ==> s.tables != [] && |s.tables[Last(s)]| > 0
    ensures FlightsOk(Enlarge(s, capacity, exposed))
  {
    hide RingOk, CountsOk, CellsOk, IndexOk, Copied;
    var s' := Enlarge(s, capacity, exposed);
    forall t | 0 <= t < |s'.flights| ensures FlightOk(s', s'.flights[t]) {
      assert FlightOk(s, s.flights[t]);
      if !s.flights[t].Idle? {
        FlightFacts(s, t);
      }
    }
  }

  // ---------- publishing ----------

  /** front.store: consumers that load it start from the last block. */
  function StoreFront<T>(s: State<T>): State<T>
    requires s.tables != [] && |s.shift| == |s.tables| == |s.fronts| && |s.tables[Last(s)]| > 0 && s.blocks != []
  {
    s.(fronts := s.fronts[Last(s) := Slot(|s.tables[Last(s)]|, s.shift[Last(s)], |s.blocks| - 1)])
  }

  lemma StoreFrontKeepsInv<T>(s: State<T>)
    requires Inv(s) && s.tables != [] && |s.shift| == |s.tables| == |s.fronts| && |s.tables[Last(s)]| > 0 && s.blocks != []
    requires s.kept < |s.blocks|
    ensures Inv(StoreFront(s)) && FrontOk(s.tables[Last(s)], StoreFront(s).fronts[Last(s)])
  {
    hide RingOk, CountOk;
    var s' := StoreFront(s);
    NewestOfInv(s);
    assert HasEntry(s.tables[Last(s)], s.shift[Last(s)], |s.blocks| - 1, s.blocks[|s.blocks| - 1]);
    forall j: nat | j < |s'.tables| ensures HeaderOk(s', j) {
      HeaderOfInv(s, j);
    }
    forall k: nat | k < s'.published ensures CountOk(s', k) {
      CountFramed(s, s', k);
    }
    forall i: nat | i < |s'.items| ensures ItemOk(s', i) {
      assert ItemOk(s, i);
    }
    forall t | 0 <= t < |s'.flights| ensures FlightOk(s', s'.flights[t]) {
      assert FlightOk(s, s.flights[t]);
    }
  }

  lemma CountFramed<T>(s: State<T>, s': State<T>, k: nat)
    requires s' == s.(fronts := s'.fronts, cells := s'.cells, tailBlock := s'.tailBlock, next := s'.next)
    requires k < |s.done| && k < |s.blocks| && CountOk(s, k)
    ensures CountOk(s', k)
  {
  }

  function Construct<T>(s: State<T>, b: Block, o: nat, x: T): State<T> {
    s.(cells := s.cells[(b, o) := x])
  }

  /** Writing element i, not published yet, spares the cells of those that are not dequeued. */
  lemma ConstructKeepsInv<T>(s: State<T>, i: nat, x: T)
    requires Inv(s) && |s.items| <= i && Oldest(s) <= Number(i, s.size) < |s.blocks|
    ensures Inv(Construct(s, s.blocks[Number(i, s.size)], Offset(i, s.size), x))
  {
    hide IndexOk, CountOk;
    var k := Number(i, s.size);
    var s' := Construct(s, s.blocks[k], Offset(i, s.size), x);
    IndexFramed(s, s');
    forall m: nat | m < s'.published ensures CountOk(s', m) {
      CountFramed(s, s', m);
    }
    forall t | 0 <= t < |s'.flights| ensures FlightOk(s', s'.flights[t]) {
      assert FlightOk(s, s.flights[t]);
    }
    forall m: nat | m < |s'.items| ensures ItemOk(s', m) {
      assert ItemOk(s, m);
      NumberBounds(m, s.size);
      NumberBounds(i, s.size);
      var q := Number(m, s.size);
      assert s.kept <= q < |s.blocks| && q != k ==> s.blocks[q] != s.blocks[k];
    }
  }

  /** The tail index moves. */
  function Publish<T>(s: State<T>, xs: seq<T>): State<T>
    requires |s.done| <= |s.blocks|
  {
    s.(items := s.items + xs, published := |s.blocks|, done := s.done + seq(|s.blocks| - |s.done|, _ => 0))
  }

  /** Element i, of the ones to be published, is in its cell. */
  ghost predicate Written<T>(s: State<T>, xs: seq<T>, i: nat)
    requires s.size > 0 && |s.items| <= i < |s.items| + |xs|
  {
    var k := Number(i, s.size);
    && Oldest(s) <= k < |s.blocks|
    && (s.blocks[k], Offset(i, s.size)) in s.cells && s.cells[(s.blocks[k], Offset(i, s.size))] == xs[i - |s.items|]
  }

  ghost predicate Constructed<T>(s: State<T>, xs: seq<T>, n: nat)
    requires s.size > 0 && n <= |xs|
  {
    forall i: nat :: |s.items| <= i < |s.items| + n ==> Written(s, xs, i)
  }

  /** The blocks to be published are not dequeued from yet. */
  ghost predicate Untouched<T>(s: State<T>) {
    && s.published <= |s.blocks| && Oldest(s) <= s.published
    && forall k: nat :: s.published <= k < |s.blocks| ==> s.blocks[k] in s.counter && s.counter[s.blocks[k]] == 0
  }

  lemma NothingClaimed<T>(s: State<T>, k: nat)
    requires Inv(s) && s.published <= k
    ensures Sum(Units(k, s.size), s.flights) == 0 == Overlap(0, s.head, k, s.size)
  {
    hide IndexOk, RingOk, CountsOk, CellsOk;
    BaseOrder(s.published, k, s.size);
    forall t | 0 <= t < |s.flights| ensures Units(k, s.size)(s.flights[t]) == 0 {
      assert FlightOk(s, s.flights[t]);
    }
    SumZero(Units(k, s.size), s.flights);
  }

  lemma PublishedCounts<T>(s: State<T>, xs: seq<T>)
    requires Inv(s) && Untouched(s) && |s.done| <= |s.blocks| && s.kept <= s.published
    ensures CountsOk(Publish(s, xs))
  {
    hide RingOk, IndexOk, FlightsOk, CellsOk;
    var s' := Publish(s, xs);
    forall k: nat | k < s'.published ensures CountOk(s', k) {
      if k < s.published {
        assert CountOk(s, k);
      } else {
        NothingClaimed(s, k);
      }
    }
  }

  lemma PublishedRest<T>(s: State<T>, xs: seq<T>)
    requires Inv(s) && Constructed(s, xs, |xs|) && |s.done| <= |s.blocks|
    ensures CellsOk(Publish(s, xs)) && FlightsOk(Publish(s, xs))
  {
    hide RingOk, IndexOk, CountsOk;
    var s' := Publish(s, xs);
    forall i: nat | i < |s'.items| ensures ItemOk(s', i) {
      if i < |s.items| {
        assert ItemOk(s, i);
      } else {
        assert Written(s, xs, i);
      }
    }
    forall t | 0 <= t < |s'.flights| ensures FlightOk(s', s'.flights[t]) {
      assert FlightOk(s, s.flights[t]);
    }
  }

  lemma PublishKeepsInv<T>(s: State<T>, xs: seq<T>)
    requires Inv(s) && |s.items| + |xs| <= Base(|s.blocks|, s.size) && Constructed(s, xs, |xs|) && Untouched(s)
    requires s.blocks != [] ==> s.tables != [] && |s.fronts| == |s.tables| && FrontOk(s.tables[Last(s)], s.fronts[Last(s)])
    requires s.kept <= s.published && |s.done| <= |s.blocks|
    ensures Inv(Publish(s, xs))
  {
    hide RingOk, CountsOk, FlightsOk, CellsOk, Constructed, Untouched;
    var s' := Publish(s, xs);
    NewestOfInv(s);
    PublishedCounts(s, xs);
    PublishedRest(s, xs);
    forall j: nat | j < |s'.tables| ensures HeaderOk(s', j) {
      HeaderOfInv(s, j);
    }
  }

  // ---------- the ring ----------

  /** The `next` pointers go round the ring in the order of the block numbers, from the last block to the oldest. */
  ghost predicate RingLinked<T>(s: State<T>) {
    && s.slots <= |s.blocks|
    && (s.blocks != [] ==> s.slots > 0 && LinksTo(s, |s.blocks| - 1, s.blocks[Oldest(s)]))
    && forall k: nat :: Oldest(s) <= k < |s.blocks| - 1 ==> NextLinked(s, k)
  }

  ghost predicate AtTail<T>(s: State<T>) {
    s.tailBlock == if s.blocks == [] then None else Some(s.blocks[|s.blocks| - 1])
  }

  ghost predicate NextLinked<T>(s: State<T>, k: nat)
    requires k < |s.blocks| - 1
  {
    LinksTo(s, k, s.blocks[k + 1])
  }

  ghost predicate LinksTo<T>(s: State<T>, k: nat, b: Block)
    requires k < |s.blocks|
  {
    s.blocks[k] in s.next && s.next[s.blocks[k]] == b
  }

  lemma TakeRingLinked<T>(s: State<T>)
    requires Inv(s) && RingLinked(s) && s.tables != [] && |s.shift| == |s.tables| && |s.tables[Last(s)]| > 0 && s.blocks != []
    ensures RingLinked(Take(s))
  {
    hide IndexOk, CountsOk, FlightsOk, CellsOk, RingOk;
    var s', n := Take(s), |s.blocks|;
    assert LinksTo(s, n - 1, s.blocks[Oldest(s)]);
    assert s.slots > 1 ==> NextLinked(s, Oldest(s));
    assert s'.blocks[Oldest(s')] == if s.slots > 1 then s.blocks[Oldest(s) + 1] else s.blocks[Oldest(s)];
    forall k: nat | Oldest(s') <= k < |s'.blocks| - 1 ensures NextLinked(s', k) {
      assert k < n - 1 ==> NextLinked(s, k);
    }
  }

  /** The new block goes between the tail block and the one after it. */
  function Inserted<T>(s: State<T>, b: Block): map<Block, Block>
    requires s.tailBlock.Some? ==> s.tailBlock.value in s.next
  {
    if s.tailBlock.None? then s.next[b := b] else s.next[b := s.next[s.tailBlock.value]][s.tailBlock.value := b]
  }

  lemma AddRingLinked<T>(s: State<T>, b: Block, count: nat)
    requires Inv(s) && RingLinked(s) && AtTail(s) && s.tables != [] && |s.shift| == |s.tables| && |s.tables[Last(s)]| > 0 && NotInRing(s, b)
    ensures s.tailBlock.Some? ==> s.tailBlock.value in s.next
    ensures RingLinked(Add(s, b, count).(next := Inserted(s, b)))
  {
    hide IndexOk, CountsOk, FlightsOk, CellsOk;
    var n := |s.blocks|;
    assert n > 0 ==> LinksTo(s, n - 1, s.blocks[Oldest(s)]);
    var s' := Add(s, b, count).(next := Inserted(s, b));
    forall k: nat | Oldest(s') <= k < |s'.blocks| - 1 ensures NextLinked(s', k) {
      if k < n - 1 {
        assert NextLinked(s, k) && s.blocks[k] != s.blocks[n - 1] && s.blocks[k] != b;
      }
    }
  }

  /** What the producer sees when it looks at the block after the tail block. */
  lemma NextIsOldest<T>(s: State<T>)
    requires Inv(s) && RingLinked(s) && AtTail(s) && s.tailBlock.Some?
    ensures s.blocks != [] && s.tables != [] && 0 < s.slots <= |s.blocks| && s.tailBlock.value in s.next
    ensures s.next[s.tailBlock.value] == s.blocks[Oldest(s)]
    ensures Oldest(s) < s.published ==> s.blocks[Oldest(s)] in s.counter && |s.done| == s.published
    ensures Oldest(s) < s.published ==> (s.counter[s.blocks[Oldest(s)]] == s.size <==> OldestIsDone(s))
    ensures Oldest(s) < s.published && s.counter[s.blocks[Oldest(s)]] != s.size ==> s.kept == Oldest(s)
  {
    hide FlightsOk, CellsOk, RingOk;
    assert LinksTo(s, |s.blocks| - 1, s.blocks[Oldest(s)]);
    if Oldest(s) < s.published {
      assert CountOk(s, Oldest(s));
    }
  }
}
