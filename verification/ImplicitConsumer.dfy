/**
 The consumers of an implicit producer: every atomic step keeps the invariant of module
 ImplicitState, whatever the producer and the other consumers have done before it.
 */
module ImplicitConsumer {
  import opened Sums
  import opened BlockNumbers
  import opened BlockIndex
  import opened ImplicitState
  import opened Remainders

  function Go<T>(s: State<T>, t: nat, f: Flight): State<T>
    requires t < |s.flights|
  {
    s.(flights := s.flights[t := f])
  }

  // ---------- the steps ----------

  predicate CanClaim<T>(s: State<T>, t: nat, n: nat) {
    t < |s.flights| && s.flights[t].Idle? && 0 < n && s.head + n <= |s.items|
  }

  /** headIndex.fetch_add; the ticket protocol has made sure that n elements are there. */
  function Claim<T>(s: State<T>, t: nat, n: nat): State<T>
    requires CanClaim(s, t, n)
  {
    Go(s, t, Claimed(s.head, s.head + n)).(head := s.head + n)
  }

  predicate CanLoadHeader<T>(s: State<T>, t: nat) {
    t < |s.flights| && s.flights[t].Claimed? && s.index.tables != []
  }

  function LoadHeader<T>(s: State<T>, t: nat): State<T>
    requires CanLoadHeader(s, t)
  {
    Go(s, t, HasHeader(Newest(s.index), s.flights[t].index, s.flights[t].stop))
  }

  predicate CanLoadTail<T>(s: State<T>, t: nat) {
    t < |s.flights| && s.flights[t].HasHeader? && s.flights[t].j < |s.index.tails|
  }

  function LoadTail<T>(s: State<T>, t: nat): State<T>
    requires CanLoadTail(s, t)
  {
    var f := s.flights[t];
    Go(s, t, HasTail(f.j, s.index.tails[f.j], f.index, f.stop))
  }

  predicate CanLoadBase<T>(s: State<T>, t: nat) {
    && s.size > 0 && t < |s.flights| && s.flights[t].HasTail?
    && var f := s.flights[t];
    && f.j < |s.index.tables| && f.tail < |s.index.tables[f.j]| && s.index.tables[f.j][f.tail] < |s.index.key|
    && s.index.key[s.index.tables[f.j][f.tail]].Some?
  }

  function LoadBase<T>(s: State<T>, t: nat): State<T>
    requires CanLoadBase(s, t)
  {
    var f := s.flights[t];
    Go(s, t, Reading(f.j, SlotFrom(s.index, f.j, f.tail, Number(f.index, s.size)).value, f.index, f.stop))
  }

  /** The rest of the claim is at the next slot. */
  function Advance(j: nat, slot: nat, capacity: nat, index: nat, stop: nat): Flight
    requires capacity > 0
  {
    if index == stop then Idle else Reading(j, (slot + 1) % capacity, index, stop)
  }

  predicate CanFinish<T>(s: State<T>, t: nat) {
    && s.size > 0 && t < |s.flights| && s.flights[t].Reading?
    && var f := s.flights[t];
    && f.j < |s.index.tables| && f.slot < |s.index.tables[f.j]| && s.index.tables[f.j][f.slot] < |s.index.value|
    && s.index.value[s.index.tables[f.j][f.slot]].Some?
    && s.index.value[s.index.tables[f.j][f.slot]].value in s.counter
    && Number(f.index, s.size) < |s.done| && f.index < f.stop
  }

  /** set_many_empty on the section just read: whoever makes the counter reach the block size empties the block. */
  function Finish<T>(s: State<T>, t: nat): State<T>
    requires CanFinish(s, t)
  {
    var f := s.flights[t];
    var table, k, end := s.index.tables[f.j], Number(f.index, s.size), SectionEnd(f.index, f.stop, s.size);
    SectionBounds(f.index, f.stop, s.size);
    var b := s.index.value[table[f.slot]].value;
    var n := s.counter[b] + (end - f.index);
    var s' := s.(counter := s.counter[b := n], done := s.done[k := s.done[k] + (end - f.index)]);
    Go(s', t, if n == s.size then Clearing(f.j, f.slot, k, b, end, f.stop)
              else Advance(f.j, f.slot, |table|, end, f.stop))
  }

  predicate CanNull<T>(s: State<T>, t: nat) {
    && t < |s.flights| && s.flights[t].Clearing?
    && var f := s.flights[t];
    && f.j < |s.index.tables| && f.slot < |s.index.tables[f.j]|
    && var e := s.index.tables[f.j][f.slot]; e < |s.index.key| == |s.index.value| && s.index.key[e].Some?
  }

  function Null<T>(s: State<T>, t: nat): State<T>
    requires CanNull(s, t)
  {
    var f := s.flights[t];
    Go(s, t, Freeing(f.j, f.slot, f.k, f.b, f.index, f.stop))
      .(index := StoreNull(s.index, s.index.tables[f.j][f.slot]), nulled := s.nulled + {f.k})
  }

  predicate CanFree<T>(s: State<T>, t: nat) {
    t < |s.flights| && s.flights[t].Freeing? && s.flights[t].j < |s.index.tables| && |s.index.tables[s.flights[t].j]| > 0
  }

  /** add_block_to_free_list: the block is no longer this sub-queue's. */
  function Free<T>(s: State<T>, t: nat): State<T>
    requires CanFree(s, t)
  {
    var f := s.flights[t];
    Go(s, t, Advance(f.j, f.slot, |s.index.tables[f.j]|, f.index, f.stop))
      .(released := s.released + {f.k}, home := s.home - {f.b})
  }

  /** The owners of other blocks may do anything to them. */
  ghost predicate SameAtHome<T>(s: State<T>, cells: map<(Block, nat), T>, counter: map<Block, nat>, next: map<Block, Option<Block>>) {
    && (forall c :: c in s.cells && c.0 in s.home ==> c in cells && cells[c] == s.cells[c])
    && (forall b :: b in s.counter && b in s.home ==> b in counter && counter[b] == s.counter[b])
    && (forall b :: b in s.next && b in s.home ==> b in next && next[b] == s.next[b])
  }

  // ---------- steps that only look something up ----------

  /** A flight that keeps its claim. */
  lemma UnitsKept(size: nat, blocks: seq<Block>, counter: map<Block, nat>, released: set<nat>, done: seq<nat>, head: nat,
                  flights: seq<Flight>, t: nat, f': Flight)
    requires CountsOk(size, blocks, counter, released, done, head, flights) && t < |flights|
    requires if Start(flights[t]) == Stop(flights[t]) then Start(f') == Stop(f')
             else Start(f') == Start(flights[t]) && Stop(f') == Stop(flights[t])
    ensures CountsOk(size, blocks, counter, released, done, head, flights[t := f'])
  {
    var flights' := flights[t := f'];
    forall k: nat | k < |blocks| ensures CountOk(size, blocks[k], counter, released, done[k], head, flights', k) {
      SumUpdate(Units(k, size), flights, t, f');
    }
  }

  lemma MovedStages(size: nat, nulled: set<nat>, released: set<nat>, done: seq<nat>, flights: seq<Flight>, t: nat, f: Flight)
    requires StagesOk(size, nulled, released, done, flights) && t < |flights|
    requires !f.Clearing? && !f.Freeing? && !flights[t].Clearing? && !flights[t].Freeing?
    ensures StagesOk(size, nulled, released, done, flights[t := f])
  {
    var flights' := flights[t := f];
    forall k ensures StageOk(size, nulled, released, done, flights', k) {
      assert StageOk(size, nulled, released, done, flights, k);
      SumUpdate(Clears(k), flights, t, f);
      SumUpdate(Frees(k), flights, t, f);
    }
  }

  lemma MovedKeepsInv<T>(s: State<T>, t: nat, f: Flight)
    requires Inv(s) && t < |s.flights| && FlightOk(s.size, s.index, s.blocks, s.head, f)
    requires Start(f) == Start(s.flights[t]) && Stop(f) == Stop(s.flights[t])
    requires !f.Clearing? && !f.Freeing? && !s.flights[t].Clearing? && !s.flights[t].Freeing?
    ensures Inv(Go(s, t, f))
  {
    UnitsKept(s.size, s.blocks, s.counter, s.released, s.done, s.head, s.flights, t, f);
    MovedStages(s.size, s.nulled, s.released, s.done, s.flights, t, f);
  }

  /** A claimed element means that there is a header. */
  lemma ClaimedHasHeader<T>(s: State<T>, t: nat)
    requires Inv(s) && t < |s.flights| && s.flights[t].Claimed?
    ensures CanLoadHeader(s, t)
  {
    HeadOfFlightIsLive(s, t);
  }

  lemma LoadHeaderKeepsInv<T>(s: State<T>, t: nat)
    requires Inv(s) && CanLoadHeader(s, t)
    ensures Inv(LoadHeader(s, t))
  {
    var f := s.flights[t];
    assert FlightOk(s.size, s.index, s.blocks, s.head, f);
    MovedKeepsInv(s, t, HasHeader(Newest(s.index), f.index, f.stop));
  }

  /** The tail slot a consumer loads, of the newest header or an old one, holds a base. */
  lemma LoadTailKeepsInv<T>(s: State<T>, t: nat)
    requires Inv(s) && CanLoadTail(s, t)
    ensures Inv(LoadTail(s, t))
  {
    var f := s.flights[t];
    TailIsKeyed(s, t);
    assert FlightOk(s.size, s.index, s.blocks, s.head, f);
    MovedKeepsInv(s, t, HasTail(f.j, s.index.tails[f.j], f.index, f.stop));
  }

  lemma TailIsKeyed<T>(s: State<T>, t: nat)
    requires Inv(s) && CanLoadTail(s, t)
    ensures var j := s.flights[t].j;
            && j < |s.index.tables| && s.index.tails[j] < |s.index.tables[j]|
            && s.index.tables[j][s.index.tails[j]] < |s.index.key| && s.index.key[s.index.tables[j][s.index.tails[j]]].Some?
  {
    var f := s.flights[t];
    assert f.index < f.stop && Covered(s.index, f.j, f.stop, s.size) by {
      assert FlightOk(s.size, s.index, s.blocks, s.head, f);
    }
    HeadOfFlightIsLive(s, t);
    NumberMonotone(f.index, f.stop - 1, s.size);
    KeyedTail(s.index, f.j, Number(f.index, s.size), f.stop, s.size);
  }

  lemma LoadBaseKeepsInv<T>(s: State<T>, t: nat)
    requires Inv(s) && CanLoadBase(s, t)
    ensures Inv(LoadBase(s, t))
  {
    var f := s.flights[t];
    assert FlightOk(s.size, s.index, s.blocks, s.head, f);
    OffsetFromTail(s.index, f.j, f.tail, Number(f.index, s.size));
    MovedKeepsInv(s, t, Reading(f.j, SlotFrom(s.index, f.j, f.tail, Number(f.index, s.size)).value, f.index, f.stop));
  }

  lemma KeyedTail(v: View, j: nat, k: nat, stop: nat, size: nat)
    requires Ok(v) && size > 0 && Covered(v, j, stop, size) && k < Blocks(stop, size) && k in v.live && k < v.count
    ensures v.key[v.tables[j][v.tails[j]]].Some?
  {
    if j + 1 == |v.tables| {
      assert NewestHeaderOk(v);
      assert SlotKeyed(v.tables[j], v.shift[j], v.key, v.count - 1);
    } else {
      assert OldHeaderOk(v, j);
    }
  }

  // ---------- claiming ----------

  lemma ClaimKeepsBooks<T>(s: State<T>, t: nat, n: nat)
    requires Books(s) && CanClaim(s, t, n)
    ensures Books(Claim(s, t, n))
  {
    var f := Claimed(s.head, s.head + n);
    ClaimedCounts(s.size, s.blocks, s.counter, s.released, s.done, s.head, s.flights, t, n);
    MovedStages(s.size, s.nulled, s.released, s.done, s.flights, t, f);
    HeadMovesFlights(s.size, s.index, s.blocks, s.head, s.flights, s.head + n);
  }

  lemma ClaimKeepsInv<T>(s: State<T>, t: nat, n: nat)
    requires Inv(s) && CanClaim(s, t, n)
    ensures Inv(Claim(s, t, n))
  {
    ClaimKeepsBooks(s, t, n);
  }

  lemma ClaimedCounts(size: nat, blocks: seq<Block>, counter: map<Block, nat>, released: set<nat>, done: seq<nat>, head: nat,
                      flights: seq<Flight>, t: nat, n: nat)
    requires CountsOk(size, blocks, counter, released, done, head, flights) && t < |flights| && flights[t].Idle?
    ensures CountsOk(size, blocks, counter, released, done, head + n, flights[t := Claimed(head, head + n)])
  {
    var flights' := flights[t := Claimed(head, head + n)];
    forall k: nat | k < |blocks| ensures CountOk(size, blocks[k], counter, released, done[k], head + n, flights', k) {
      SumUpdate(Units(k, size), flights, t, Claimed(head, head + n));
      OverlapSplit(0, head, head + n, k, size);
    }
  }

  lemma HeadMovesFlights(size: nat, index: View, blocks: seq<Block>, head: nat, flights: seq<Flight>, head': nat)
    requires size > 0 && FlightsOk(size, index, blocks, head, flights) && head <= head'
    ensures FlightsOk(size, index, blocks, head', flights)
  {
    forall t | 0 <= t < |flights| ensures FlightOk(size, index, blocks, head', flights[t]) {
      assert FlightOk(size, index, blocks, head, flights[t]);
    }
  }

  // ---------- finishing a section ----------

  /** The flight after its section, whatever it becomes, has just the section less. */
  lemma FinishedUnits(size: nat, f: Flight, f': Flight, end: nat, k: nat)
    requires size > 0 && f.Reading? && f.index < f.stop && end == SectionEnd(f.index, f.stop, size)
    requires if end == f.stop then Start(f') == Stop(f') else Start(f') == end && Stop(f') == f.stop
    ensures Units(k, size)(f) == Units(k, size)(f') + (if k == Number(f.index, size) then end - f.index else 0)
  {
    SectionBounds(f.index, f.stop, size);
    OverlapSplit(f.index, end, f.stop, k, size);
    OverlapInside(f.index, end, Number(f.index, size), k, size);
  }

  lemma FinishedCounts(size: nat, blocks: seq<Block>, counter: map<Block, nat>, released: set<nat>, done: seq<nat>, head: nat,
                       flights: seq<Flight>, t: nat, f': Flight, k: nat, n: nat)
    requires size > 0 && CountsOk(size, blocks, counter, released, done, head, flights) && t < |flights|
    requires k < |blocks| && k !in released && blocks[k] in counter
    requires forall m: nat :: Units(m, size)(flights[t]) == Units(m, size)(f') + (if m == k then n else 0)
    requires forall m: nat :: m < |blocks| && m !in released && m != k ==> blocks[m] != blocks[k]
    ensures CountsOk(size, blocks, counter[blocks[k] := counter[blocks[k]] + n], released, done[k := done[k] + n], head,
                     flights[t := f'])
  {
    var counter', done', flights' := counter[blocks[k] := counter[blocks[k]] + n], done[k := done[k] + n], flights[t := f'];
    forall m: nat | m < |blocks| ensures CountOk(size, blocks[m], counter', released, done'[m], head, flights', m) {
      assert CountOk(size, blocks[m], counter, released, done[m], head, flights, m);
      SumUpdate(Units(m, size), flights, t, f');
    }
  }

  lemma FinishedStages(size: nat, nulled: set<nat>, released: set<nat>, done: seq<nat>, flights: seq<Flight>, t: nat, f': Flight,
                       k: nat, n: nat)
    requires StagesOk(size, nulled, released, done, flights) && t < |flights| && flights[t].Reading?
    requires k < |done| && k !in nulled && done[k] + n <= size && n > 0
    requires if done[k] + n == size then f'.Clearing? && f'.k == k else !f'.Clearing? && !f'.Freeing?
    ensures StagesOk(size, nulled, released, done[k := done[k] + n], flights[t := f'])
  {
    var done', flights' := done[k := done[k] + n], flights[t := f'];
    forall m ensures StageOk(size, nulled, released, done', flights', m) {
      assert StageOk(size, nulled, released, done, flights, m);
      SumUpdate(Clears(m), flights, t, f');
      SumUpdate(Frees(m), flights, t, f');
    }
  }

  /** A consumer that is reading can finish its section: the entry has the block. */
  lemma ReadingCanFinish<T>(s: State<T>, t: nat)
    requires Inv(s) && t < |s.flights| && s.flights[t].Reading?
    ensures CanFinish(s, t)
  {
    ReaderFindsBlock(s, t);
    ReaderIsCovered(s, t);
    var k := Number(s.flights[t].index, s.size);
    assert CountOk(s.size, s.blocks[k], s.counter, s.released, s.done[k], s.head, s.flights, k);
  }

  /** The next slot belongs to the next block. */
  lemma NextSlotOfNext(index: View, j: nat, slot: nat, k: nat)
    requires SlotIs(index, j, slot, k)
    ensures SlotIs(index, j, (slot + 1) % |index.tables[j]|, k + 1)
  {
    RemainderLeft(k + index.shift[j], 1, |index.tables[j]|);
  }

  lemma AdvanceIsOk(size: nat, index: View, blocks: seq<Block>, head: nat, j: nat, slot: nat, k: nat, i: nat, stop: nat)
    requires size > 0 && Covered(index, j, stop, size) && SlotIs(index, j, slot, k) && i <= stop <= head
    requires i < stop ==> i == Base(k + 1, size)
    ensures FlightOk(size, index, blocks, head, Advance(j, slot, |index.tables[j]|, i, stop))
  {
    NextSlotOfNext(index, j, slot, k);
    if i < stop {
      NumberUnique(i, k + 1, size);
    }
  }

  /** The entry that is read holds the block of the section. */
  ghost predicate AtBlock<T>(s: State<T>, t: nat)
    requires CanFinish(s, t)
  {
    var f := s.flights[t];
    var k := Number(f.index, s.size);
    && k < |s.blocks| && k !in s.nulled && k !in s.released
    && s.index.value[s.index.tables[f.j][f.slot]].value == s.blocks[k] && s.counter[s.blocks[k]] == s.done[k]
  }

  lemma ReadingIsAtBlock<T>(s: State<T>, t: nat)
    requires Inv(s) && CanFinish(s, t)
    ensures AtBlock(s, t)
  {
    var k := Number(s.flights[t].index, s.size);
    ReaderFindsBlock(s, t);
    ReaderIsCovered(s, t);
    assert CountOk(s.size, s.blocks[k], s.counter, s.released, s.done[k], s.head, s.flights, k);
  }

  lemma FinishFlight<T>(s: State<T>, t: nat)
    requires Books(s) && CanFinish(s, t) && AtBlock(s, t)
    ensures FlightOk(s.size, s.index, s.blocks, s.head, Finish(s, t).flights[t])
  {
    var f := s.flights[t];
    var k, end := Number(f.index, s.size), SectionEnd(f.index, f.stop, s.size);
    assert FlightOk(s.size, s.index, s.blocks, s.head, f);
    SectionBounds(f.index, f.stop, s.size);
    NumberMonotone(f.index, f.stop - 1, s.size);
    AdvanceIsOk(s.size, s.index, s.blocks, s.head, f.j, f.slot, k, end, f.stop);
  }

  lemma FinishedTotal<T>(s: State<T>, t: nat)
    requires Books(s) && CanFinish(s, t)
    ensures var f := s.flights[t];
            var k, n := Number(f.index, s.size), SectionEnd(f.index, f.stop, s.size) - f.index;
            n > 0 && s.done[k] + n <= s.size
  {
    var f := s.flights[t];
    SectionBounds(f.index, f.stop, s.size);
    UnfinishedIsLive(s, t, Number(f.index, s.size));
  }

  lemma FinishKeepsCounts<T>(s: State<T>, t: nat)
    requires Books(s) && CanFinish(s, t) && AtBlock(s, t)
    ensures var s' := Finish(s, t); CountsOk(s'.size, s'.blocks, s'.counter, s'.released, s'.done, s'.head, s'.flights)
  {
    var f, f' := s.flights[t], Finish(s, t).flights[t];
    var k, n := Number(f.index, s.size), SectionEnd(f.index, f.stop, s.size) - f.index;
    FinishedTotal(s, t);
    forall m: nat ensures Units(m, s.size)(f) == Units(m, s.size)(f') + (if m == k then n else 0) {
      FinishedUnits(s.size, f, f', f.index + n, m);
    }
    FinishedCounts(s.size, s.blocks, s.counter, s.released, s.done, s.head, s.flights, t, f', k, n);
  }

  lemma FinishKeepsStages<T>(s: State<T>, t: nat)
    requires Books(s) && CanFinish(s, t) && AtBlock(s, t)
    ensures var s' := Finish(s, t); StagesOk(s'.size, s'.nulled, s'.released, s'.done, s'.flights)
  {
    var f, f' := s.flights[t], Finish(s, t).flights[t];
    FinishedTotal(s, t);
    FinishedStages(s.size, s.nulled, s.released, s.done, s.flights, t, f',
                   Number(f.index, s.size), SectionEnd(f.index, f.stop, s.size) - f.index);
  }

  lemma FinishKeepsInv<T>(s: State<T>, t: nat)
    requires Inv(s) && CanFinish(s, t)
    ensures Inv(Finish(s, t))
  {
    ReadingIsAtBlock(s, t);
    FinishKeepsCounts(s, t);
    FinishKeepsStages(s, t);
    FinishFlight(s, t);
  }

  // ---------- releasing an emptied block ----------

  /** The entry a clearing consumer nulls is its block's. */
  lemma ClearingFindsEntry<T>(s: State<T>, t: nat)
    requires Inv(s) && t < |s.flights| && s.flights[t].Clearing?
    ensures CanNull(s, t)
    ensures var f := s.flights[t];
            s.index.key[s.index.tables[f.j][f.slot]] == Some(f.k) && f.b == s.blocks[f.k] && f.b in s.home
  {
    var f := s.flights[t];
    assert FlightOk(s.size, s.index, s.blocks, s.head, f);
    ClearingIsLive(s, t);
    FoundAtSlot(s.index, f.j, f.slot, f.k, f.stop, s.size);
  }

  lemma NulledStages(size: nat, nulled: set<nat>, released: set<nat>, done: seq<nat>, flights: seq<Flight>, t: nat, f': Flight)
    requires StagesOk(size, nulled, released, done, flights) && t < |flights| && flights[t].Clearing?
    requires flights[t].k < |done| && done[flights[t].k] == size && flights[t].k !in nulled
    requires f'.Freeing? && f'.k == flights[t].k
    ensures StagesOk(size, nulled + {f'.k}, released, done, flights[t := f'])
  {
    var nulled', flights' := nulled + {f'.k}, flights[t := f'];
    forall m ensures StageOk(size, nulled', released, done, flights', m) {
      assert StageOk(size, nulled, released, done, flights, m);
      SumUpdate(Clears(m), flights, t, f');
      SumUpdate(Frees(m), flights, t, f');
    }
  }

  lemma NulledLive(index: View, blocks: seq<Block>, nulled: set<nat>, added: map<nat, Block>, e: nat)
    requires LiveOk(index, blocks, nulled, added) && e < |index.key| == |index.value| && index.key[e].Some?
    requires index.key[e].value < |blocks|
    ensures LiveOk(StoreNull(index, e), blocks, nulled + {index.key[e].value}, added)
  {
  }

  /** Nulling an entry moves nothing in the headers. */
  lemma NulledFlights(size: nat, index: View, blocks: seq<Block>, head: nat, flights: seq<Flight>, e: nat)
    requires size > 0 && FlightsOk(size, index, blocks, head, flights) && e < |index.key| == |index.value| && index.key[e].Some?
    ensures FlightsOk(size, StoreNull(index, e), blocks, head, flights)
  {
    forall t | 0 <= t < |flights| ensures FlightOk(size, StoreNull(index, e), blocks, head, flights[t]) {
      assert FlightOk(size, index, blocks, head, flights[t]);
    }
  }

  lemma NullKeepsIndex<T>(s: State<T>, t: nat)
    requires Inv(s) && CanNull(s, t)
    ensures var s' := Null(s, t);
            && Ok(s'.index) && LiveOk(s'.index, s'.blocks, s'.nulled, s'.added)
            && FlightsOk(s'.size, s'.index, s'.blocks, s'.head, s'.flights)
  {
    var f := s.flights[t];
    var e := s.index.tables[f.j][f.slot];
    ClearingFindsEntry(s, t);
    StoreNullKeepsOk(s.index, e);
    assert FlightOk(s.size, s.index, s.blocks, s.head, f);
    NulledLive(s.index, s.blocks, s.nulled, s.added, e);
    NulledFlights(s.size, s.index, s.blocks, s.head, s.flights, e);
  }

  lemma NullKeepsCounts<T>(s: State<T>, t: nat)
    requires Inv(s) && CanNull(s, t)
    ensures var s' := Null(s, t);
            && CountsOk(s'.size, s'.blocks, s'.counter, s'.released, s'.done, s'.head, s'.flights)
            && StagesOk(s'.size, s'.nulled, s'.released, s'.done, s'.flights)
  {
    var f' := Null(s, t).flights[t];
    ClearingIsLive(s, t);
    UnitsKept(s.size, s.blocks, s.counter, s.released, s.done, s.head, s.flights, t, f');
    NulledStages(s.size, s.nulled, s.released, s.done, s.flights, t, f');
  }

  lemma NullKeepsInv<T>(s: State<T>, t: nat)
    requires Inv(s) && CanNull(s, t)
    ensures Inv(Null(s, t))
  {
    NullKeepsIndex(s, t);
    NullKeepsCounts(s, t);
  }

  lemma FreedStages(size: nat, nulled: set<nat>, released: set<nat>, done: seq<nat>, flights: seq<Flight>, t: nat, f': Flight)
    requires StagesOk(size, nulled, released, done, flights) && t < |flights| && flights[t].Freeing?
    requires flights[t].k in nulled && flights[t].k !in released && !f'.Clearing? && !f'.Freeing?
    ensures StagesOk(size, nulled, released + {flights[t].k}, done, flights[t := f'])
  {
    var released', flights' := released + {flights[t].k}, flights[t := f'];
    forall m ensures StageOk(size, nulled, released', done, flights', m) {
      assert StageOk(size, nulled, released, done, flights, m);
      SumUpdate(Clears(m), flights, t, f');
      SumUpdate(Frees(m), flights, t, f');
    }
  }

  lemma FreedCounts(size: nat, blocks: seq<Block>, counter: map<Block, nat>, released: set<nat>, done: seq<nat>, head: nat,
                    flights: seq<Flight>, k: nat)
    requires CountsOk(size, blocks, counter, released, done, head, flights)
    ensures CountsOk(size, blocks, counter, released + {k}, done, head, flights)
  {
    forall m: nat | m < |blocks| ensures CountOk(size, blocks[m], counter, released + {k}, done[m], head, flights, m) {
      assert CountOk(size, blocks[m], counter, released, done[m], head, flights, m);
    }
  }

  lemma FreedFlight<T>(s: State<T>, t: nat)
    requires Books(s) && CanFree(s, t)
    ensures FlightOk(s.size, s.index, s.blocks, s.head, Free(s, t).flights[t])
  {
    var f := s.flights[t];
    assert FlightOk(s.size, s.index, s.blocks, s.head, f);
    AdvanceIsOk(s.size, s.index, s.blocks, s.head, f.j, f.slot, f.k, f.index, f.stop);
  }

  lemma FreeKeepsCounts<T>(s: State<T>, t: nat)
    requires Books(s) && CanFree(s, t)
    ensures var s' := Free(s, t);
            && CountsOk(s'.size, s'.blocks, s'.counter, s'.released, s'.done, s'.head, s'.flights)
            && StagesOk(s'.size, s'.nulled, s'.released, s'.done, s'.flights)
  {
    var f, f' := s.flights[t], Free(s, t).flights[t];
    FreeingIsOwned(s, t);
    FreedCounts(s.size, s.blocks, s.counter, s.released, s.done, s.head, s.flights, f.k);
    UnitsKept(s.size, s.blocks, s.counter, s.released + {f.k}, s.done, s.head, s.flights, t, f');
    FreedStages(s.size, s.nulled, s.released, s.done, s.flights, t, f');
  }

  lemma FreedHome(blocks: seq<Block>, released: set<nat>, added: map<nat, Block>, home: map<Block, Option<nat>>, k: nat)
    requires HomeOk(blocks, released, added, home) && k < |blocks| && k !in released && forall m :: m in added ==> |blocks| <= m
    ensures HomeOk(blocks, released + {k}, added, home - {blocks[k]})
  {
  }

  lemma FreedCells<T>(size: nat, cells: map<(Block, nat), T>, items: seq<T>, blocks: seq<Block>, released: set<nat>, k: nat)
    requires size > 0 && CellsOk(size, cells, items, blocks, released)
    ensures CellsOk(size, cells, items, blocks, released + {k})
  {
    forall i: nat | i < |items| ensures ItemOk(size, cells, items, blocks, released + {k}, i) {
      assert ItemOk(size, cells, items, blocks, released, i);
    }
  }

  lemma FreeKeepsInv<T>(s: State<T>, t: nat)
    requires Inv(s) && CanFree(s, t)
    ensures Inv(Free(s, t))
  {
    FreeKeepsCounts(s, t);
    FreedFlight(s, t);
    FreeingIsOwned(s, t);
    FreedHome(s.blocks, s.released, s.added, s.home, s.flights[t].k);
    FreedCells(s.size, s.cells, s.items, s.blocks, s.released, s.flights[t].k);
  }

  // ---------- other sub-queues ----------

  /** What others do with blocks that are not this sub-queue's does not matter to it. */
  lemma OthersKeepInv<T>(s: State<T>, cells: map<(Block, nat), T>, counter: map<Block, nat>, next: map<Block, Option<Block>>)
    requires Inv(s) && SameAtHome(s, cells, counter, next)
    ensures Inv(s.(cells := cells, counter := counter, next := next))
  {
    forall k: nat | k < |s.blocks| ensures CountOk(s.size, s.blocks[k], counter, s.released, s.done[k], s.head, s.flights, k) {
      assert CountOk(s.size, s.blocks[k], s.counter, s.released, s.done[k], s.head, s.flights, k);
    }
    forall i: nat | i < |s.items| ensures ItemOk(s.size, cells, s.items, s.blocks, s.released, i) {
      if Number(i, s.size) < |s.blocks| && Number(i, s.size) !in s.released {
        CellHoldsItem(s, i);
      }
    }
  }

  // ---------- any step of any consumer ----------

  /** Thread t can take a step; an idle one can claim n elements if they are there. */
  predicate CanStep<T>(s: State<T>, t: nat, n: nat) {
    && t < |s.flights|
    && match s.flights[t]
       case Idle => CanClaim(s, t, n)
       case Claimed(_, _) => CanLoadHeader(s, t)
       case HasHeader(_, _, _) => CanLoadTail(s, t)
       case HasTail(_, _, _, _) => CanLoadBase(s, t)
       case Reading(_, _, _, _) => CanFinish(s, t)
       case Clearing(_, _, _, _, _, _) => CanNull(s, t)
       case Freeing(_, _, _, _, _, _) => CanFree(s, t)
  }

  function StepOf<T>(s: State<T>, t: nat, n: nat): State<T>
    requires CanStep(s, t, n)
  {
    match s.flights[t]
    case Idle => Claim(s, t, n)
    case Claimed(_, _) => LoadHeader(s, t)
    case HasHeader(_, _, _) => LoadTail(s, t)
    case HasTail(_, _, _, _) => LoadBase(s, t)
    case Reading(_, _, _, _) => Finish(s, t)
    case Clearing(_, _, _, _, _, _) => Null(s, t)
    case Freeing(_, _, _, _, _, _) => Free(s, t)
  }

  /** A consumer with a claim always finds what its next access needs: it never looks at a null or at the wrong entry. */
  lemma NeverStuck<T>(s: State<T>, t: nat, n: nat)
    requires Inv(s) && t < |s.flights| && !s.flights[t].Idle?
    ensures CanStep(s, t, n)
  {
    var f := s.flights[t];
    assert FlightOk(s.size, s.index, s.blocks, s.head, f);
    if f.Claimed? {
      ClaimedHasHeader(s, t);
    } else if f.Reading? {
      ReadingCanFinish(s, t);
    } else if f.Clearing? {
      ClearingFindsEntry(s, t);
    }
  }

  lemma StepKeepsInv<T>(s: State<T>, t: nat, n: nat)
    requires Inv(s) && CanStep(s, t, n)
    ensures Inv(StepOf(s, t, n))
  {
    var f := s.flights[t];
    if f.Idle? {
      ClaimKeepsInv(s, t, n);
    } else if f.Claimed? {
      LoadHeaderKeepsInv(s, t);
    } else if f.HasHeader? {
      LoadTailKeepsInv(s, t);
    } else if f.HasTail? {
      LoadBaseKeepsInv(s, t);
    } else if f.Reading? {
      FinishKeepsInv(s, t);
    } else if f.Clearing? {
      NullKeepsInv(s, t);
    } else {
      FreeKeepsInv(s, t);
    }
  }

  // ---------- what consumers leave alone ----------

  /** Consumers null pointers of published blocks in the index, and touch nothing else there. */
  ghost predicate IndexKept(v: View, v': View) {
    && v' == v.(value := v'.value, live := v'.live) && |v'.value| == |v.value|
    && forall e :: 0 <= e < |v.value| ==> v'.value[e] == v.value[e] || v'.value[e] == None
  }

  /** Blocks leave `home` only when consumers have emptied them; those that stay are left alone. */
  ghost predicate HomeKept<T>(s: State<T>, s': State<T>) {
    && (forall b :: b in s'.home ==> b in s.home && s'.home[b] == s.home[b])
    && (forall b :: b in s.home && b !in s'.home ==> s.home[b].Some? && s.home[b].value < |s.blocks|)
    && (forall b :: b in s'.home && b in s.counter && (s.home[b].None? || s.home[b].value >= |s.blocks|) ==>
          b in s'.counter && s'.counter[b] == s.counter[b])
  }

  /** Outside the index, s' comes from s by steps of consumers. */
  ghost predicate Kept<T>(s: State<T>, s': State<T>) {
    && s' == s.(index := s'.index, counter := s'.counter, head := s'.head, flights := s'.flights, done := s'.done,
                nulled := s'.nulled, released := s'.released, home := s'.home)
    && s.head <= s'.head && |s.flights| == |s'.flights| && s.nulled <= s'.nulled && s.released <= s'.released
    && HomeKept(s, s')
  }

  ghost predicate ByConsumers<T>(s: State<T>, s': State<T>) {
    Kept(s, s') && IndexKept(s.index, s'.index)
  }

  lemma KeptAtOnce<T>(s: State<T>)
    ensures Kept(s, s) && ByConsumers(s, s)
  {
  }

  lemma KeptChains<T>(a: State<T>, b: State<T>, c: State<T>)
    requires Kept(a, b) && Kept(b, c)
    ensures Kept(a, c)
  {
  }

  lemma ByConsumersChains<T>(a: State<T>, b: State<T>, c: State<T>)
    requires ByConsumers(a, b) && ByConsumers(b, c)
    ensures ByConsumers(a, c)
  {
  }

  lemma NullIsByConsumers<T>(s: State<T>, t: nat)
    requires Inv(s) && CanNull(s, t)
    ensures ByConsumers(s, Null(s, t))
  {
    ClearingFindsEntry(s, t);
    ClearingIsLive(s, t);
  }

  lemma FinishIsByConsumers<T>(s: State<T>, t: nat)
    requires Inv(s) && CanFinish(s, t)
    ensures ByConsumers(s, Finish(s, t))
  {
    ReadingIsAtBlock(s, t);
  }

  lemma FreeIsByConsumers<T>(s: State<T>, t: nat)
    requires Inv(s) && CanFree(s, t)
    ensures ByConsumers(s, Free(s, t))
  {
    FreeingIsOwned(s, t);
  }

  lemma StepIsByConsumers<T>(s: State<T>, t: nat, n: nat)
    requires Inv(s) && CanStep(s, t, n)
    ensures ByConsumers(s, StepOf(s, t, n))
  {
    var f := s.flights[t];
    if f.Clearing? {
      NullIsByConsumers(s, t);
    } else if f.Reading? {
      FinishIsByConsumers(s, t);
    } else if f.Freeing? {
      FreeIsByConsumers(s, t);
    }
  }

  // ---------- when no consumer is active ----------

  lemma QuietSums(k: nat, size: nat, flights: seq<Flight>)
    requires forall t :: 0 <= t < |flights| ==> flights[t].Idle?
    ensures Sum(Units(k, size), flights) == Sum(Clears(k), flights) == Sum(Frees(k), flights) == 0
  {
    SumZero(Units(k, size), flights);
    SumZero(Clears(k), flights);
    SumZero(Frees(k), flights);
  }

  /** Then exactly the blocks all of whose elements have been dequeued have been given back. */
  lemma QuietBlocks<T>(s: State<T>, k: nat)
    requires Inv(s) && k < |s.blocks| && forall t :: 0 <= t < |s.flights| ==> s.flights[t].Idle?
    ensures k in s.released <==> Base(k + 1, s.size) <= s.head
  {
    QuietSums(k, s.size, s.flights);
    assert CountOk(s.size, s.blocks[k], s.counter, s.released, s.done[k], s.head, s.flights, k);
    assert StageOk(s.size, s.nulled, s.released, s.done, s.flights, k);
  }

  // ---------- progress ----------

  /** The most accesses a consumer has left: 3 to look up its first block, and 3 for each block, which has an element at least. */
  function AccessesLeft(f: Flight): nat
    requires Start(f) <= Stop(f)
  {
    3 * (Stop(f) - Start(f)) + match f
                               case Claimed(_, _) => 3
                               case HasHeader(_, _, _) => 2
                               case HasTail(_, _, _, _) => 1
                               case Clearing(_, _, _, _, _, _) => 2
                               case Freeing(_, _, _, _, _, _) => 1
                               case _ => 0
  }

  ghost predicate Shrinks<T>(s: State<T>, s': State<T>, t: nat) {
    && t < |s.flights| == |s'.flights| && Start(s.flights[t]) <= Stop(s.flights[t]) && Start(s'.flights[t]) <= Stop(s'.flights[t])
    && AccessesLeft(s'.flights[t]) < AccessesLeft(s.flights[t])
  }

  lemma FinishShrinks<T>(s: State<T>, t: nat)
    requires CanFinish(s, t)
    ensures Shrinks(s, Finish(s, t), t)
  {
    hide SectionEnd;
    SectionBounds(s.flights[t].index, s.flights[t].stop, s.size);
  }

  lemma LookupsShrink<T>(s: State<T>, t: nat)
    requires t < |s.flights| && Start(s.flights[t]) <= Stop(s.flights[t])
    ensures CanLoadHeader(s, t) ==> Shrinks(s, LoadHeader(s, t), t)
    ensures CanLoadTail(s, t) ==> Shrinks(s, LoadTail(s, t), t)
    ensures CanLoadBase(s, t) ==> Shrinks(s, LoadBase(s, t), t)
  {
  }

  lemma FreesShrink<T>(s: State<T>, t: nat)
    requires t < |s.flights| && Start(s.flights[t]) <= Stop(s.flights[t])
    ensures CanNull(s, t) ==> Shrinks(s, Null(s, t), t)
    ensures CanFree(s, t) ==> Shrinks(s, Free(s, t), t)
  {
  }

  lemma FlightRange<T>(s: State<T>, t: nat)
    requires Inv(s) && t < |s.flights|
    ensures Start(s.flights[t]) <= Stop(s.flights[t])
  {
    hide Ok, LiveOk, HomeOk, CountsOk, StagesOk, CellsOk;
    FlightIsOk(s, t);
  }

  /** Every access brings a consumer nearer to the end of its claim, whatever the others do. */
  lemma AccessesShrink<T>(s: State<T>, t: nat)
    requires Inv(s) && CanStep(s, t, 0) && !s.flights[t].Idle?
    ensures Shrinks(s, StepOf(s, t, 0), t)
  {
    hide Inv, Shrinks, LoadHeader, LoadTail, LoadBase, Finish, Null, Free;
    FlightRange(s, t);
    if s.flights[t].Reading? {
      FinishShrinks(s, t);
    } else {
      LookupsShrink(s, t);
      FreesShrink(s, t);
    }
  }
}
