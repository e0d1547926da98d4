/**
 How many entries of an implicit producer's block index are free ahead of its tail: what decides whether the next blocks get
 an entry without a larger index.
 */
module ImplicitSupply {
  import opened BlockIndex
  import opened ImplicitState
  import opened ImplicitUpdates
  import opened ImplicitStages
  import opened Remainders

  /** The entry i + 1 slots after the tail can be claimed. */
  predicate EntryIsFree(table: seq<nat>, tail: nat, key: seq<Option<nat>>, value: seq<Option<Block>>, i: nat) {
    && 0 < |table|
    && var e := table[(tail + 1 + i) % |table|];
    e < |key| && e < |value| && (key[e].None? || value[e].None?)
  }

  /** How many can be claimed one after the other, from i + 1 slots after the tail on, in one turn. */
  function FreeFrom(table: seq<nat>, tail: nat, key: seq<Option<nat>>, value: seq<Option<Block>>, i: nat): (n: nat)
    ensures i <= |table| ==> i + n <= |table|
    ensures forall j: nat :: i <= j < i + n ==> EntryIsFree(table, tail, key, value, j)
    ensures i + n < |table| ==> !EntryIsFree(table, tail, key, value, i + n)
    decreases |table| - i
  {
    if i < |table| && EntryIsFree(table, tail, key, value, i) then 1 + FreeFrom(table, tail, key, value, i + 1) else 0
  }

  /** The entries ahead of the newest header's tail that can be claimed. */
  function Open(tables: seq<seq<nat>>, tails: seq<nat>, key: seq<Option<nat>>, value: seq<Option<Block>>): nat {
    if tables == [] || |tails| != |tables| then 0 else FreeFrom(tables[|tables| - 1], tails[|tables| - 1], key, value, 0)
  }

  function OpenOf(v: View): nat {
    Open(v.tables, v.tails, v.key, v.value)
  }

  /** So many in a row are all there are, if they are free and the next one is not. */
  lemma {:induction false} FreeFromIs(table: seq<nat>, tail: nat, key: seq<Option<nat>>, value: seq<Option<Block>>, i: nat, n: nat)
    requires i + n <= |table| && forall j: nat :: i <= j < i + n ==> EntryIsFree(table, tail, key, value, j)
    requires i + n < |table| ==> !EntryIsFree(table, tail, key, value, i + n)
    ensures FreeFrom(table, tail, key, value, i) == n
    decreases n
  {
    hide EntryIsFree;
    if n > 0 {
      assert EntryIsFree(table, tail, key, value, i);
      FreeFromIs(table, tail, key, value, i + 1, n - 1);
    }
  }

  lemma OpenMeansRoom(v: View)
    requires Shape(v) && v.tables != []
    ensures NextEntry(v) < |v.key| && OpenOf(v) <= |v.tables[Newest(v)]| && (OpenOf(v) > 0 <==> HasRoom(v))
  {
    hide FreeFrom;
    var n := Newest(v);
    assert EntryIsFree(v.tables[n], v.tails[n], v.key, v.value, 0) <==> HasRoom(v);
    FreeFromStarts(v.tables[n], v.tails[n], v.key, v.value);
  }

  lemma FreeFromStarts(table: seq<nat>, tail: nat, key: seq<Option<nat>>, value: seq<Option<Block>>)
    requires |table| > 0
    ensures FreeFrom(table, tail, key, value, 0) <= |table|
    ensures FreeFrom(table, tail, key, value, 0) > 0 <==> EntryIsFree(table, tail, key, value, 0)
  {
  }

  /** Different slots of the newest header have different entries. */
  lemma SlotsDiffer(v: View, p: nat, q: nat)
    requires Ok(v) && v.tables != [] && p < |v.tables[Newest(v)]| && q < |v.tables[Newest(v)]|
    requires v.tables[Newest(v)][p] == v.tables[Newest(v)][q]
    ensures p == q
  {
    var n := Newest(v);
    var c, shift := |v.tables[n]|, v.shift[n];
    assert Linked(v.tables[n], shift, v.tables[n], shift, p, q);
    SameRemainder(p - shift, q - shift, shift, c);
    SmallRemainder(p, c);
    SmallRemainder(q, c);
  }

  /** The entry at the next tail has got a block: what is open after it is what was open one slot further from the old tail. */
  lemma OpenShifts(table: seq<nat>, tail: nat, key: seq<Option<nat>>, value: seq<Option<Block>>, k: nat, b: Block, i: nat)
    requires i < |table| && |key| == |value| && forall p :: 0 <= p < |table| ==> table[p] < |key|
    requires forall p: nat, q: nat :: p < |table| && q < |table| && table[p] == table[q] ==> p == q
    ensures var newTail := (tail + 1) % |table|;
            var e := table[newTail];
            EntryIsFree(table, newTail, key[e := Some(k)], value[e := Some(b)], i)
            <==> i + 1 < |table| && EntryIsFree(table, tail, key, value, i + 1)
  {
    var newTail := (tail + 1) % |table|;
    RemainderLeft(tail + 1, 1 + i, |table|);
    OnceAgain(tail + 1, i + 1, |table|);
    var p := (tail + 1 + (i + 1)) % |table|;
    assert p == (newTail + 1 + i) % |table|;
    assert table[p] == table[newTail] <==> i + 1 == |table|;
  }

  /** Less than a turn on, and not at once, is another slot. */
  lemma OnceAgain(a: nat, i: nat, c: nat)
    requires 0 < i <= c
    ensures (a + i) % c == a % c <==> i == c
  {
    RemainderShift(a, c, 1);
    if (a + i) % c == a % c && i < c {
      NearAndSameSlot(a + i, a, 0, c);
    }
  }

  /** When the next entry has got a block, one fewer is open. */
  lemma OpenAfterPut(v: View, b: Block)
    requires Ok(v) && v.tables != [] && HasRoom(v)
    ensures NextEntry(v) < |v.key| && OpenOf(StoreValue(StoreKey(v), NextEntry(v), v.count, b)) == OpenOf(v) - 1
  {
    hide Ok, Shape, EntryIsFree, FreeFrom;
    ShapeOfOk(v);
    AllSlotsDiffer(v);
    OpenMeansRoom(v);
    var n, e := Newest(v), NextEntry(v);
    var v' := StoreValue(StoreKey(v), e, v.count, b);
    var table, tail, open := v.tables[n], v.tails[n], OpenOf(v);
    forall i: nat | i < |table|
      ensures EntryIsFree(table, v'.tails[n], v'.key, v'.value, i) <==>
                i + 1 < |table| && EntryIsFree(table, tail, v.key, v.value, i + 1)
    {
      OpenShifts(table, tail, v.key, v.value, v.count, b, i);
    }
    FreeFromIs(table, v'.tails[n], v'.key, v'.value, 0, open - 1);
  }

  lemma ShapeOfOk(v: View)
    requires Ok(v) && v.tables != []
    ensures Shape(v) && |v.key| == |v.value| && |v.tails| == |v.tables| && v.tails[Newest(v)] < |v.tables[Newest(v)]|
    ensures forall p :: 0 <= p < |v.tables[Newest(v)]| ==> v.tables[Newest(v)][p] < |v.key|
  {
  }

  lemma AllSlotsDiffer(v: View)
    requires Ok(v) && v.tables != []
    ensures forall p: nat, q: nat ::
              p < |v.tables[Newest(v)]| && q < |v.tables[Newest(v)]| && v.tables[Newest(v)][p] == v.tables[Newest(v)][q] ==> p == q
  {
    hide Ok;
    forall p: nat, q: nat
      | p < |v.tables[Newest(v)]| && q < |v.tables[Newest(v)]| && v.tables[Newest(v)][p] == v.tables[Newest(v)][q]
      ensures p == q
    {
      SlotsDiffer(v, p, q);
    }
  }

  /** A larger header has as many open entries as it has new ones, if there was none before. */
  lemma OpenAfterGrow(v: View, junk: seq<Option<Block>>, published: nat)
    requires Ok(v) && v.tables != [] && !HasRoom(v) && |junk| == FreshEntries(v)
    ensures var v' := Grow(v, junk, published);
            && v'.tables != [] && |v'.tables[Newest(v')]| == 2 * |v.tables[Newest(v)]| && |v'.tails| == |v'.tables|
            && OpenOf(v') == |v.tables[Newest(v)]|
  {
    hide Ok, Shape, FreeFrom;
    ShapeOfOk(v);
    var n := Newest(v);
    var v', c := Grow(v, junk, published), |v.tables[n]|;
    var table, tail: nat := GrownTable(v), c - 1;
    forall i: nat | i < c ensures EntryIsFree(table, tail, v'.key, v'.value, i) {
      SmallRemainder(c + i, 2 * c);
      assert table[c + i] == |v.key| + i;
    }
    assert !EntryIsFree(table, tail, v'.key, v'.value, c) by {
      OnceAgain(0, 2 * c, 2 * c);
      SmallRemainder(0, 2 * c);
      assert table[0] == NextEntry(v);
    }
    FreeFromIs(table, tail, v'.key, v'.value, 0, c);
  }

  /** Once the entry claimed for block number k has its block, the newest header has c slots, `open` of them open ahead. */
  ghost predicate ClaimLeaves(v: View, e: nat, k: nat, c: nat, open: int) {
    && v.tables != [] && |v.tables[Newest(v)]| == c && e < |v.value|
    && forall b: Block :: OpenOf(StoreValue(v, e, k, b)) == open
  }

  lemma ClaimLeavesOneLess(v: View)
    requires Ok(v) && v.tables != [] && HasRoom(v)
    ensures NextEntry(v) < |v.key|
    ensures ClaimLeaves(StoreKey(v), NextEntry(v), v.count, |v.tables[Newest(v)]|, OpenOf(v) - 1)
  {
    ShapeOfOk(v);
    hide Ok, OpenOf;
    forall b: Block ensures OpenOf(StoreValue(StoreKey(v), NextEntry(v), v.count, b)) == OpenOf(v) - 1 {
      OpenAfterPut(v, b);
    }
  }

  /** The claimed entry has got its block. */
  lemma FilledNow(v: View, v': View, e: nat, k: nat, b: Block)
    requires e < |v.value| && v' == StoreValue(v, e, k, b)
    ensures forall c: nat, open: int :: ClaimLeaves(v, e, k, c, open) ==> v'.tables != [] && Capacity(v') == c && OpenOf(v') == open
  {
    hide OpenOf;
  }

  lemma OpenAfterEnlarge<T>(s: State<T>, junk: seq<Option<Block>>)
    requires Inv(s) && Shape(s.index) && s.index.tables != [] && |junk| == FreshEntries(s.index)
    ensures var v := Enlarge(s, junk).index;
            && v.tables != [] && Capacity(v) == 2 * Capacity(s.index) && |v.tables| == |s.index.tables| + 1
            && v.count == s.index.count && v.high == s.index.high
            && (!HasRoom(s.index) ==> OpenOf(v) == Capacity(s.index))
  {
    OpenOfGrown(s.index, junk, |s.blocks|);
  }

  lemma OpenOfGrown(v: View, junk: seq<Option<Block>>, published: nat)
    requires Ok(v) && Shape(v) && v.tables != [] && |junk| == FreshEntries(v)
    ensures var v' := Grow(v, junk, published);
            && v'.tables != [] && Capacity(v') == 2 * Capacity(v) && |v'.tables| == |v.tables| + 1
            && (!HasRoom(v) ==> OpenOf(v') == Capacity(v))
  {
    hide Ok, OpenOf;
    if !HasRoom(v) {
      OpenAfterGrow(v, junk, published);
    }
  }

  lemma CapacityOfShape(v: View)
    requires Shape(v)
    ensures v.tables != [] ==> Capacity(v) > 0
  {
  }
}
