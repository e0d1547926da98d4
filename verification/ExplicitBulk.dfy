/**
 When a bulk enqueue of an explicit producer succeeds, when its failure is undone, and what becomes of one that is not.
 */
module ExplicitBulk {
  import opened BlockNumbers
  import opened BlockIndex
  import opened ExplicitState
  import opened ExplicitUpdates
  import opened ExplicitStages
  import opened BlockSupply
  import opened Remainders
  import opened Circular

  // ---------- the empty blocks ahead ----------

  predicate LooksEmpty<T>(s: State<T>, k: nat) {
    k < |s.blocks| && s.blocks[k] in s.counter && s.counter[s.blocks[k]] == s.size
  }

  /** What the producer sees of the block after the tail block. */
  lemma AheadLooksEmpty<T>(s: State<T>)
    requires Inv(s) && Settled(s)
    ensures 0 <= Oldest(s)
    ensures s.tailBlock.Some? ==> s.tailBlock.value in s.next && s.next[s.tailBlock.value] in s.counter
    ensures LooksEmpty(s, Oldest(s)) <==> s.tailBlock.Some? && s.counter[s.next[s.tailBlock.value]] == s.size
  {
    hide Inv;
    SettledFacts(s);
    AheadFacts(s);
    if s.tailBlock.Some? {
      NextIsOldest(s);
    }
  }

  /** How many blocks of the ring from number k on are empty, up to the first that is not, and at most n. */
  function EmptyFrom<T>(s: State<T>, k: nat, n: nat): (m: nat)
    ensures m <= n && forall j: nat :: k <= j < k + m ==> LooksEmpty(s, j)
    ensures m < n ==> !LooksEmpty(s, k + m)
    decreases n
  {
    if 0 < n && LooksEmpty(s, k) then 1 + EmptyFrom(s, k + 1, n - 1) else 0
  }

  /** The first m blocks ahead are empty. */
  ghost predicate Ahead<T>(s0: State<T>, m: nat, needed: nat)
    requires 0 <= Oldest(s0) && m <= needed
  {
    EmptyFrom(s0, Oldest(s0), needed) == m + EmptyFrom(s0, Oldest(s0) + m, needed - m)
  }

  lemma AheadStarts<T>(s: State<T>, needed: nat)
    requires 0 <= Oldest(s)
    ensures Ahead(s, 0, needed)
  {
  }

  lemma AheadOne<T>(s0: State<T>, s: State<T>, m: nat, needed: nat)
    requires Taking(s0, s, m) && m < needed && 0 <= Oldest(s0) && Ahead(s0, m, needed) && s.counter == s0.counter && Oldest(s) < s.published
    requires s.blocks[Oldest(s)] in s.counter && s.counter[s.blocks[Oldest(s)]] == s.size
    ensures Ahead(s0, m + 1, needed)
  {
    assert s.blocks[Oldest(s)] == s0.blocks[Oldest(s0) + m];
  }

  /** The producer stops taking when it has enough, when the next block is not empty, or when it is the first one taken. */
  lemma AheadEnds<T>(s0: State<T>, s: State<T>, m: nat, needed: nat)
    requires Inv(s) && RingLinked(s) && Taking(s0, s, m) && 0 <= Oldest(s0) && m <= needed
    requires Ahead(s0, m, needed) && s.counter == s0.counter
    requires s.tailBlock.Some? ==> s.tailBlock.value in s.next && s.next[s.tailBlock.value] in s.counter
    requires m == needed || s.tailBlock.None?
             || (m > 0 && s.next[s.tailBlock.value] == s.blocks[|s0.blocks|]) || s.counter[s.next[s.tailBlock.value]] != s.size
    ensures EmptyFrom(s0, Oldest(s0), needed) == m
  {
    hide Inv, RingLinked;
    StopsTaking(s0, s, m);
    if m < needed && Oldest(s) < s.published {
      assert s.tailBlock.Some?;
      assert s.blocks[Oldest(s)] == s0.blocks[Oldest(s0) + m];
    }
  }

  // ---------- failures that are not undone ----------

  /**
   A call that has taken `ahead` empty blocks and needs `rest` more, from number k on, fails and is not undone: it gets a new
   block before one is refused, or it has taken blocks and the index grows before the first is refused.
   */
  ghost predicate Diverges(r: Supply, k: nat, ahead: nat, rest: nat)
    requires Sound(r)
  {
    !Obtainable(r, k, rest) && (Obtainable(r, k, 1) || (0 < ahead && GrowsInVain(r, k)))
  }

  /** A failed bulk enqueue sets everything back. */
  predicate IsUndone(ahead: nat, added: nat, grew: bool) {
    added == 0 && !(grew && ahead > 0)
  }

  lemma YieldsDecide(r: Supply, k: nat, ahead: nat, rest: nat, ok: bool, added: nat, grew: bool)
    requires Yields(r, k, rest, ok, added, grew)
    ensures Sound(r) && (ok <==> Obtainable(r, k, rest))
    ensures !ok && !IsUndone(ahead, added, grew) <==> Diverges(r, k, ahead, rest)
  {
    hide Obtainable, GrowsInVain;
    if !ok && added == 0 {
      assert !Obtainable(r, k, 1);
    }
  }

  /** The tail block that it sets back to. */
  function TailSetBack<T>(s0: State<T>, s: State<T>): Block
    requires s.blocks != []
  {
    if s0.blocks == [] then s.blocks[0] else s0.blocks[|s0.blocks| - 1]
  }

  // ---------- what a failure that is not undone does ----------

  /**
   Blocks were taken and the index has grown, and then no block was had. The front is set back to a slot m too far: once block
   number |s0.blocks| has its entry there, a consumer that looks for block k, which is still in use, gets the one taken for
   number k + m.
   */
  lemma LookupIsMisled<T>(s0: State<T>, s: State<T>, m: nat, b: Block, k: nat)
    requires Inv(s) && Progress(s0, s, m, 0, true) && 0 < m && s.kept == Oldest(s) <= k < |s0.blocks|
    ensures s.tables != [] && s.slots < |s.tables[Last(s)]| && k + m < |s.blocks|
    ensures var table := s.tables[Last(s)][s.slots := Some(Entry(|s0.blocks|, b))];
            && table[(s.slots + (k - |s0.blocks|)) % |table|] == Some(Entry(k + m, s.blocks[k + m]))
            && s.blocks[k + m] != s.blocks[k]
  {
    hide Taking, Gathered, Unchanged, EntriesOk, CountsOk, FlightsOk, CellsOk;
    NewestOfInv(s);
    var table, p := s.tables[Last(s)], k + m - Oldest(s);
    SmallRemainder(p, |table|);
    assert HasEntry(table, s.shift[Last(s)], k + m, s.blocks[k + m]);
  }

  /** The blocks of a ring in the order of `next`, from the one after the tail block on. */
  ghost predicate Follows(next: map<Block, Block>, tail: Option<Block>, blocks: seq<Block>) {
    && blocks != [] && tail == Some(blocks[|blocks| - 1])
    && forall i: nat :: i < |blocks| ==> blocks[i] in next && next[blocks[i]] == blocks[if i + 1 < |blocks| then i + 1 else 0]
  }

  ghost predicate NoRepeats(blocks: seq<Block>) {
    forall i, j :: 0 <= i < j < |blocks| ==> blocks[i] != blocks[j]
  }

  /** The ring when the tail block is that of number p. */
  function RingFrom<T>(s: State<T>, p: nat): seq<Block>
    requires 0 <= Oldest(s) <= p < |s.blocks|
  {
    s.blocks[p + 1..] + s.blocks[Oldest(s)..p + 1]
  }

  lemma RingFromFollows<T>(s: State<T>, p: nat)
    requires Inv(s) && RingLinked(s) && 0 <= Oldest(s) <= p < |s.blocks|
    ensures Follows(s.next, Some(s.blocks[p]), RingFrom(s, p)) && |RingFrom(s, p)| == s.slots && NoRepeats(RingFrom(s, p))
  {
    hide IndexOk, CountsOk, FlightsOk, CellsOk;
    var ring, n, low := RingFrom(s, p), |s.blocks|, Oldest(s);
    forall i: nat | i < |ring| ensures ring[i] in s.next && s.next[ring[i]] == ring[if i + 1 < |ring| then i + 1 else 0] {
      var k := if i < n - p - 1 then p + 1 + i else low + i - (n - p - 1);
      if k < n - 1 {
        assert NextLinked(s, k);
      } else {
        assert LinksTo(s, k, s.blocks[low]);
      }
    }
  }

  /** What the start of a block reads and changes; of the blocks of the ring, in its order, the first `empty` are empty. */
  datatype Fields = Fields(table: seq<Option<Entry>>, front: nat, slotsUsed: nat, begun: nat, ring: seq<Block>, empty: nat)

  predicate Ready(f: Fields) {
    f.front < |f.table| && f.slotsUsed <= |f.table| && f.empty <= |f.ring|
  }

  /** How many blocks can be begun before the index is found full. */
  function StartsLeft(f: Fields): nat
    requires Ready(f)
  {
    f.empty + |f.table| - f.slotsUsed
  }

  /** The next block is begun: the one ahead if it is empty, else b, from the pool. */
  function Started(f: Fields, b: Block): (f': Fields)
    requires Ready(f) && StartsLeft(f) > 0
    ensures Ready(f') && StartsLeft(f') == StartsLeft(f) - 1
  {
    var c := if f.empty > 0 then f.ring[0] else b;
    var table, front := f.table[f.front := Some(Entry(f.begun, c))], (f.front + 1) % |f.table|;
    if f.empty > 0 then Fields(table, front, f.slotsUsed, f.begun + 1, f.ring[1..] + [c], f.empty - 1)
    else Fields(table, front, f.slotsUsed + 1, f.begun + 1, f.ring + [c], 0)
  }

  function StartedAll(f: Fields, bs: seq<Block>): Fields
    requires Ready(f) && |bs| <= StartsLeft(f)
    decreases |bs|
  {
    if bs == [] then f else StartedAll(Started(f, bs[0]), bs[1..])
  }

  lemma StartedHasNoRepeats(f: Fields, bs: seq<Block>)
    requires Ready(f) && StartsLeft(f) > 0 && bs != [] && NoRepeats(f.ring + bs)
    ensures NoRepeats(Started(f, bs[0]).ring + bs[1..])
  {
    var n, before, after := |f.ring|, f.ring + bs, Started(f, bs[0]).ring + bs[1..];
    if f.empty > 0 {
      forall i, j | 0 <= i < j < |after| ensures after[i] != after[j] {
        assert after[i] == before[if i == n - 1 then 0 else i + 1];
        assert after[j] == before[if j == n - 1 then 0 else j + 1];
      }
    } else {
      assert after == before;
    }
  }

  /** When so many blocks have been begun that the index is full, none of the ring is empty, and none has been put in twice. */
  lemma {:induction false} RingWhenIndexIsFull(f: Fields, bs: seq<Block>)
    requires Ready(f) && |bs| == StartsLeft(f) && NoRepeats(f.ring + bs)
    ensures var f' := StartedAll(f, bs);
            && f'.empty == 0 && f'.slotsUsed == |f'.table| == |f.table| && NoRepeats(f'.ring)
            && |f'.ring| == |f.ring| + |f.table| - f.slotsUsed
    decreases |bs|
  {
    if bs == [] {
      assert f.ring + bs == f.ring;
    } else {
      StartedHasNoRepeats(f, bs);
      RingWhenIndexIsFull(Started(f, bs[0]), bs[1..]);
    }
  }

  ghost predicate InTable(table: seq<Option<Entry>>, b: Block) {
    exists p :: 0 <= p < |table| && table[p].Some? && table[p].value.block == b
  }

  /** A table has no more blocks than slots. */
  lemma {:induction false} TooManyForTable(table: seq<Option<Entry>>, blocks: seq<Block>)
    requires NoRepeats(blocks) && |table| < |blocks|
    ensures exists b :: b in blocks && !InTable(table, b)
    decreases |table|
  {
    var b := blocks[|blocks| - 1];
    assert b in blocks;
    if InTable(table, b) {
      var p :| 0 <= p < |table| && table[p].Some? && table[p].value.block == b;
      var rest := table[..p] + table[p + 1..];
      TooManyForTable(rest, blocks[..|blocks| - 1]);
      var c :| c in blocks[..|blocks| - 1] && !InTable(rest, c);
      assert c in blocks;
      forall q | 0 <= q < |table| && q != p ensures !(table[q].Some? && table[q].value.block == c) {
        assert table[q] == rest[if q < p then q else q - 1];
      }
    }
  }

  /**
   If fewer slots are recorded than the ring has blocks, then by the time the index is found full some block of the ring, all
   of them in use, has no entry any more; and only then is the ring too large for the index.
   */
  lemma BlockLosesEntry(f: Fields, bs: seq<Block>)
    requires Ready(f) && |bs| == StartsLeft(f) && NoRepeats(f.ring + bs)
    ensures var f' := StartedAll(f, bs);
            && f'.empty == 0 && (f.slotsUsed < |f.ring| <==> |f'.table| < |f'.ring|)
            && (f.slotsUsed < |f.ring| ==> exists b :: b in f'.ring && !InTable(f'.table, b))
  {
    RingWhenIndexIsFull(f, bs);
    var f' := StartedAll(f, bs);
    if f.slotsUsed < |f.ring| {
      TooManyForTable(f'.table, f'.ring);
    }
  }

  /** When the index is found full, some block of the ring, all of them in use, has no entry. */
  ghost predicate LosesEntry(f: Fields, bs: seq<Block>)
    requires Ready(f) && |bs| == StartsLeft(f)
  {
    var f' := StartedAll(f, bs);
    f'.empty == 0 && exists b :: b in f'.ring && !InTable(f'.table, b)
  }

  /**
   So it goes after every bulk enqueue that fails after it has put a new block in the ring, however many blocks ahead are
   empty then: when the index is found full, a block of the ring that is in use has no entry.
   */
  lemma FailureLosesEntry<T>(s0: State<T>, s: State<T>, m: nat, added: nat, grew: bool, front: nat, empty: nat, bs: seq<Block>)
    returns (p: nat)
    requires Inv(s) && RingLinked(s) && Progress(s0, s, m, added, grew) && added > 0 && s.tables != []
    requires front < |s.tables[Last(s)]| && empty <= s.slots && s0.slots <= |s.tables[Last(s)]|
    requires |bs| == empty + |s.tables[Last(s)]| - s0.slots && NoRepeats(bs)
    requires forall k: nat :: Oldest(s) <= k < |s.blocks| ==> s.blocks[k] !in bs
    ensures 0 <= Oldest(s) <= p < |s.blocks| && |RingFrom(s, p)| == s.slots
    ensures Follows(s.next, Some(TailSetBack(s0, s)), RingFrom(s, p))
    ensures var f := Fields(s.tables[Last(s)], front, s0.slots, |s0.blocks|, RingFrom(s, p), empty);
            && Ready(f) && StartsLeft(f) == |bs| && LosesEntry(f, bs)
  {
    hide Inv, RingLinked, NoRepeats, StartedAll, InTable;
    NewestOfInv(s);
    p := TailPosition(s0, s, m, added, grew);
    RingFromFollows(s, p);
    RingApart(s, p, bs);
    BlockLosesEntry(Fields(s.tables[Last(s)], front, s0.slots, |s0.blocks|, RingFrom(s, p), empty), bs);
  }

  lemma RingApart<T>(s: State<T>, p: nat, bs: seq<Block>)
    requires 0 <= Oldest(s) <= p < |s.blocks| && NoRepeats(RingFrom(s, p)) && NoRepeats(bs)
    requires forall k: nat :: Oldest(s) <= k < |s.blocks| ==> s.blocks[k] !in bs
    ensures NoRepeats(RingFrom(s, p) + bs)
  {
    var ring := RingFrom(s, p);
    forall i, j | 0 <= i < j < |ring + bs| ensures (ring + bs)[i] != (ring + bs)[j] {
      if i < |ring| <= j {
        assert ring[i] == s.blocks[if i < |s.blocks| - p - 1 then p + 1 + i else Oldest(s) + i - (|s.blocks| - p - 1)];
        assert bs[j - |ring|] in bs;
      }
    }
  }

  lemma TailPosition<T>(s0: State<T>, s: State<T>, m: nat, added: nat, grew: bool) returns (p: nat)
    requires Progress(s0, s, m, added, grew) && added > 0 && s.slots <= |s.blocks|
    ensures Oldest(s) <= p < |s.blocks| && s.blocks[p] == TailSetBack(s0, s)
  {
    hide Taking, Unchanged;
    if s0.blocks == [] {
      p := 0;
    } else {
      p :| Oldest(s) <= p < |s.blocks| && s.blocks[p] == s0.blocks[|s0.blocks| - 1];
    }
  }

  // ---------- the smallest such failure ----------

  lemma SecondIsRefused(r: Supply)
    requires Sound(r) && !r.canAlloc && r.indexed && r.slots == r.head == 0 && r.pool == 1
    requires r.limit.None? && 0 < r.size < Pow2(r.width - 1)
    ensures Diverges(r, 0, 0, 2) && !Obtainable(r, 0, 2)
  {
    CircularLessThanRefines(0, r.size, r.width);
    assert MayBegin(r, 0);
  }

  lemma NothingAhead<T>(s: State<T>, n: nat)
    requires s.blocks == [] && s.slots == 0
    ensures EmptyFrom(s, 0, n) == 0
  {
  }

  lemma BlockIsLeft<T>(s0: State<T>, s: State<T>, grew: bool)
    requires Inv(s) && RingLinked(s) && Progress(s0, s, 0, 1, grew) && s0.blocks == [] && s0.slots == 0
    ensures |s.blocks| == s.slots == 1 && Follows(s.next, Some(TailSetBack(s0, s)), s.blocks)
    ensures s.tables != [] && |s.tables[Last(s)]| > 0
    ensures var f := Fields(s.tables[Last(s)], 0, 0, 0, s.blocks, 1);
            && StartsLeft(f) == |f.table| + 1
            && forall bs: seq<Block> :: |bs| == StartsLeft(f) && NoRepeats(f.ring + bs) ==> LosesEntry(f, bs)
  {
    hide Inv, RingLinked, StartedAll, NoRepeats, LosesEntry;
    NewestOfInv(s);
    RingFromFollows(s, 0);
    assert RingFrom(s, 0) == s.blocks;
    var f := Fields(s.tables[Last(s)], 0, 0, 0, s.blocks, 1);
    forall bs: seq<Block> | |bs| == StartsLeft(f) && NoRepeats(f.ring + bs) ensures LosesEntry(f, bs) {
      EntryIsLost(f, bs);
    }
  }

  lemma EntryIsLost(f: Fields, bs: seq<Block>)
    requires Ready(f) && |bs| == StartsLeft(f) && NoRepeats(f.ring + bs) && f.slotsUsed < |f.ring|
    ensures LosesEntry(f, bs)
  {
    BlockLosesEntry(f, bs);
  }
}
