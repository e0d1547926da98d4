/**
 The block index of an implicit producer.

 Entries (a block base and a block pointer) are shared by a chain of headers, each twice
 as large as the one before; a header is a circular array of entry pointers with a tail
 slot. Only the newest header grows or is rewound; consumers may still look blocks up
 through older ones. Entries are named by their position in `key` and `value`, and a
 block base k * BLOCK_SIZE by its block number k (module Circular shows that the
 program's arithmetic on wrapped bases is the arithmetic on block numbers below).

 The state is a value here, with the history that explains it: `live` is the map from
 block numbers to blocks the index stands for, `count` the number of blocks inserted and
 not rewound, and `shift[j]` the constant by which the slots of header j are displaced.
 A failed bulk insertion leaves bases of rewound blocks behind; they are below `high`.
 `pending` is a block number whose base is stored and whose pointer is not.
 Class Producer in module ImplicitProducer updates the same state in place.
 */
module BlockIndex {
  import opened Remainders
  import Circular

  type Block = nat

  datatype Option<T> = None | Some(value: T)

  datatype View = View(
    key: seq<Option<nat>>, value: seq<Option<Block>>,   // the entries
    tables: seq<seq<nat>>, tails: seq<nat>,             // the headers, oldest first
    shift: seq<int>, seen: seq<nat>, tailKeyed: seq<bool>,
    live: map<nat, Block>, pending: Option<nat>, count: nat, keyed: nat, high: nat, initial: nat)

  /** The slot of block number k in a header of this capacity and shift. */
  function Slot(capacity: nat, shift: int, k: int): nat
    requires capacity > 0
  {
    (k + shift) % capacity
  }

  /** Capacities are powers of two, doubling from the initial one, and every slot has an entry. */
  ghost predicate TablesOk(tables: seq<seq<nat>>, initial: nat, entries: nat) {
    forall j :: 0 <= j < |tables| ==>
      |tables[j]| == Circular.Pow2(initial + j) && forall p :: 0 <= p < |tables[j]| ==> tables[j][p] < entries
  }

  ghost predicate Shape(v: View) {
    && |v.tables| == |v.tails| == |v.shift| == |v.seen| == |v.tailKeyed|
    && |v.key| == |v.value|
    && TablesOk(v.tables, v.initial, |v.key|)
    && (forall j :: 0 <= j < |v.tables| ==> |v.tables[j]| > 0)
    && (forall j :: 0 <= j < |v.tails| ==> v.tails[j] < |v.tables[j]|)
  }

  /** A base in an entry is always of a block whose slot is that entry's, in this header. */
  ghost predicate KeysOk(table: seq<nat>, shift: int, key: seq<Option<nat>>) {
    forall p :: 0 <= p < |table| && table[p] < |key| && key[table[p]].Some? ==>
      Slot(|table|, shift, key[table[p]].value) == p
  }

  /** If slot p of this header and slot q of the newest one share an entry, they belong to the same block numbers. */
  ghost predicate Linked(table: seq<nat>, shift: int, newest: seq<nat>, newestShift: int, p: nat, q: nat)
    requires p < |table| && q < |newest|
  {
    table[p] == newest[q] ==> (p - shift) % |table| == (q - newestShift) % |table|
  }

  ghost predicate LinksOk(table: seq<nat>, shift: int, newest: seq<nat>, newestShift: int) {
    forall p, q :: 0 <= p < |table| && 0 <= q < |newest| ==> Linked(table, shift, newest, newestShift, p, q)
  }

  /** The entry at the slot of block number k holds k and block b. */
  ghost predicate Holds(table: seq<nat>, shift: int, key: seq<Option<nat>>, value: seq<Option<Block>>, k: nat, b: Block)
    requires |table| > 0 && |key| == |value| && forall p :: 0 <= p < |table| ==> table[p] < |key|
  {
    key[table[Slot(|table|, shift, k)]] == Some(k) && value[table[Slot(|table|, shift, k)]] == Some(b)
  }

  /** The slot of block number m holds a base. */
  ghost predicate SlotKeyed(table: seq<nat>, shift: int, key: seq<Option<nat>>, m: int)
    requires |table| > 0 && forall p :: 0 <= p < |table| ==> table[p] < |key|
  {
    key[table[Slot(|table|, shift, m)]].Some?
  }

  /** Every block inserted since `keyed` left its base in its slot. */
  ghost predicate KeyedOk(table: seq<nat>, shift: int, key: seq<Option<nat>>, keyed: nat, count: nat)
    requires |table| > 0 && forall p :: 0 <= p < |table| ==> table[p] < |key|
  {
    forall m :: keyed <= m < count ==> SlotKeyed(table, shift, key, m)
  }

  /** The bases in the newest header are of the last |table| blocks inserted, rewound ones included. */
  ghost predicate RangeOk(table: seq<nat>, key: seq<Option<nat>>, high: nat) {
    forall p :: 0 <= p < |table| && table[p] < |key| && key[table[p]].Some? ==>
      key[table[p]].value < high <= key[table[p]].value + |table|
  }

  /** A pointer that is not null is of a live block, unless the entry has just been claimed. */
  ghost predicate BackedOk(table: seq<nat>, key: seq<Option<nat>>, value: seq<Option<Block>>,
                           live: map<nat, Block>, pending: Option<nat>)
    requires |key| == |value|
  {
    forall p :: 0 <= p < |table| && table[p] < |key| && key[table[p]].Some? && value[table[p]].Some? ==>
      key[table[p]].value in live || key[table[p]] == pending
  }

  function Newest(v: View): nat
    requires v.tables != []
  {
    |v.tables| - 1
  }

  /** No live block number reaches this bound. */
  ghost predicate Bounds(live: map<nat, Block>, bound: nat) {
    forall k :: k in live ==> k < bound
  }

  /** What a replaced header still promises: the blocks published before it was replaced are found in it. */
  ghost predicate OldOk(table: seq<nat>, shift: int, tail: nat, key: seq<Option<nat>>, value: seq<Option<Block>>,
                        live: map<nat, Block>, seen: nat, tailKeyed: bool)
    requires tail < |table| && |key| == |value| && forall p :: 0 <= p < |table| ==> table[p] < |key|
  {
    && (forall k :: k in live && k < seen ==> Holds(table, shift, key, value, k, live[k]))
    && (tailKeyed ==> key[table[tail]].Some?)
    && (forall k :: k in live && k < seen ==> tailKeyed)
  }

  ghost predicate OldHeaderOk(v: View, j: nat)
    requires Shape(v) && j < |v.tables|
  {
    OldOk(v.tables[j], v.shift[j], v.tails[j], v.key, v.value, v.live, v.seen[j], v.tailKeyed[j])
  }

  ghost predicate NewestOk(table: seq<nat>, shift: int, tail: nat, key: seq<Option<nat>>, value: seq<Option<Block>>,
                           live: map<nat, Block>, pending: Option<nat>, count: nat, keyed: nat, high: nat)
    requires |table| > 0 && |key| == |value| && forall p :: 0 <= p < |table| ==> table[p] < |key|
  {
    && (forall k :: k in live ==> Holds(table, shift, key, value, k, live[k]))
    && KeyedOk(table, shift, key, keyed, count)
    && tail == Slot(|table|, shift, count - 1)
    && (forall k :: k in live ==> keyed <= k && count <= k + |table|)
    && count <= high <= count + |table|
    && RangeOk(table, key, high)
    && BackedOk(table, key, value, live, pending)
  }

  ghost predicate NewestHeaderOk(v: View)
    requires Shape(v) && v.tables != []
  {
    var n := Newest(v);
    NewestOk(v.tables[n], v.shift[n], v.tails[n], v.key, v.value, v.live, v.pending, v.count, v.keyed, v.high)
  }

  /** Entry e is in some slot of the table. */
  ghost predicate Occurs(table: seq<nat>, e: nat) {
    exists q :: 0 <= q < |table| && table[q] == e
  }

  /** The newest header has every entry. */
  ghost predicate Covers(table: seq<nat>, entries: nat) {
    forall e :: 0 <= e < entries ==> Occurs(table, e)
  }

  ghost predicate Ok(v: View) {
    && Shape(v)
    && (forall j :: 0 <= j < |v.tables| ==>
          && KeysOk(v.tables[j], v.shift[j], v.key)
          && LinksOk(v.tables[j], v.shift[j], v.tables[Newest(v)], v.shift[Newest(v)]))
    && (forall j :: 0 <= j < |v.tables| - 1 ==> OldHeaderOk(v, j))
    && (if v.tables == [] then v.key == [] && v.live == map[] && v.count == v.high == 0 && v.pending == None
        else NewestHeaderOk(v) && Covers(v.tables[Newest(v)], |v.key|))
  }

  // ---------- lookup ----------

  /** Block k can be looked up through header j: j is the newest, or k was published before j was replaced. */
  ghost predicate Visible(v: View, j: nat, k: nat)
    requires Shape(v)
  {
    j + 1 == |v.tables| || (j < |v.tables| && k < v.seen[j])
  }

  /**
   The slot that get_block_index_index_for_index computes for block number k through header j,
   from the tail it has loaded and the base it finds there.
   */
  function SlotFrom(v: View, j: nat, tail: nat, k: nat): Option<nat>
    requires j < |v.tables| && tail < |v.tables[j]| && v.tables[j][tail] < |v.key|
  {
    match v.key[v.tables[j][tail]]
    case None => None
    case Some(tailBase) => Some((tail + (k - tailBase)) % |v.tables[j]|)
  }

  function LookupSlot(v: View, j: nat, k: nat): Option<nat>
    requires j < |v.tables| == |v.tails| && v.tails[j] < |v.tables[j]| && v.tables[j][v.tails[j]] < |v.key|
  {
    SlotFrom(v, j, v.tails[j], k)
  }

  lemma OffsetIsExact(c: nat, shift: int, tail: nat, tailBase: int, k: int)
    requires c > 0 && tail == Slot(c, shift, tailBase)
    ensures (tail + (k - tailBase)) % c == Slot(c, shift, k)
  {
    RemainderLeft(tailBase + shift, k - tailBase, c);
  }

  /** Whatever base the entry at an old tail holds by now, the offset from it leads to the slot of k. */
  lemma OffsetFromTail(v: View, j: nat, tail: nat, k: nat)
    requires Ok(v) && j < |v.tables| && tail < |v.tables[j]| && v.key[v.tables[j][tail]].Some?
    ensures SlotFrom(v, j, tail, k) == Some(Slot(|v.tables[j]|, v.shift[j], k))
  {
    assert KeysOk(v.tables[j], v.shift[j], v.key);
    OffsetIsExact(|v.tables[j]|, v.shift[j], tail, v.key[v.tables[j][tail]].value, k);
  }

  /** Every live block that is visible in a header, old or new, is found through it. */
  lemma LookupFindsBlock(v: View, j: nat, k: nat)
    requires Ok(v) && j < |v.tables| && k in v.live && Visible(v, j, k)
    requires j + 1 == |v.tables| ==> v.keyed < v.count
    ensures LookupSlot(v, j, k) == Some(Slot(|v.tables[j]|, v.shift[j], k))
    ensures var e := v.tables[j][LookupSlot(v, j, k).value]; v.key[e] == Some(k) && v.value[e] == Some(v.live[k])
  {
    if j + 1 == |v.tables| {
      assert SlotKeyed(v.tables[j], v.shift[j], v.key, v.count - 1);
    } else {
      assert OldHeaderOk(v, j);
    }
    OffsetFromTail(v, j, v.tails[j], k);
  }

  // ---------- the producer's atomic updates ----------

  /** The slot after the tail of the newest header, where the next block goes. */
  function NextSlot(v: View): nat
    requires v.tables != [] && |v.tails| == |v.tables| && |v.tables[Newest(v)]| > 0
  {
    (v.tails[Newest(v)] + 1) % |v.tables[Newest(v)]|
  }

  function NextEntry(v: View): nat
    requires v.tables != [] && |v.tails| == |v.tables| && |v.tables[Newest(v)]| > 0
  {
    v.tables[Newest(v)][NextSlot(v)]
  }

  /** The entry after the tail is unused, or its block has been released. */
  predicate HasRoom(v: View)
    requires v.tables != [] && |v.tails| == |v.tables| && |v.tables[Newest(v)]| > 0
    requires NextEntry(v) < |v.key| == |v.value|
  {
    v.key[NextEntry(v)].None? || v.value[NextEntry(v)].None?
  }

  function Min(a: nat, b: nat): nat {
    if a < b then a else b
  }

  function Max(a: nat, b: nat): nat {
    if a < b then b else a
  }

  /** Claim the entry after the tail for block number `count`, and move the tail to it. */
  function StoreKey(v: View): View
    requires v.tables != [] && |v.tails| == |v.tables| && |v.tables[Newest(v)]| > 0 && NextEntry(v) < |v.key|
  {
    v.(key := v.key[NextEntry(v) := Some(v.count)], tails := v.tails[Newest(v) := NextSlot(v)],
       count := v.count + 1, keyed := Min(v.keyed, v.count), high := Max(v.high, v.count + 1), pending := Some(v.count))
  }

  /** Block b goes into the entry that was claimed for block number k. */
  function StoreValue(v: View, e: nat, k: nat, b: Block): View
    requires e < |v.value|
  {
    v.(value := v.value[e := Some(b)], live := v.live[k := b], pending := None)
  }

  /** An entry's pointer is nulled: its block is no longer live. */
  function StoreNull(v: View, e: nat): View
    requires e < |v.key| == |v.value| && v.key[e].Some?
  {
    v.(value := v.value[e := None], live := v.live - {v.key[e].value},
       pending := if v.pending == v.key[e] then None else v.pending)
  }

  function Rewind(v: View): View
    requires v.tables != [] && |v.tails| == |v.tables| && |v.tables[Newest(v)]| > 0 && v.count > 0
  {
    v.(tails := v.tails[Newest(v) := (v.tails[Newest(v)] - 1) % |v.tables[Newest(v)]|], count := v.count - 1)
  }

  /** The slot after the tail is the slot of the next block. */
  lemma NextSlotIsNext(v: View)
    requires Ok(v) && v.tables != []
    ensures NextSlot(v) == Slot(|v.tables[Newest(v)]|, v.shift[Newest(v)], v.count)
  {
    RemainderLeft(v.count - 1 + v.shift[Newest(v)], 1, |v.tables[Newest(v)]|);
  }

  /** The new base fits the entry's slot in every header that shares the entry. */
  lemma NewKeyFits(v: View, j: nat, p: nat)
    requires Ok(v) && j < |v.tables| && p < |v.tables[j]| && v.tables[j][p] == NextEntry(v)
    ensures Slot(|v.tables[j]|, v.shift[j], v.count) == p
  {
    var n := Newest(v);
    var c, cn, q := |v.tables[j]|, |v.tables[n]|, NextSlot(v);
    assert Linked(v.tables[j], v.shift[j], v.tables[n], v.shift[n], p, q);
    NextSlotIsNext(v);
    // q - shift and count have the same remainder in the newest header, hence in header j
    RemainderLeft(v.count + v.shift[n], -v.shift[n], cn);
    var m := Circular.Pow2Divides(v.initial + j, v.initial + n);
    CoarserRemainder(q - v.shift[n], v.count, m, c);
    SameRemainder(p - v.shift[j], v.count, v.shift[j], c);
    SmallRemainder(p, c);
  }

  lemma StoreKeyKeys(v: View, j: nat)
    requires Ok(v) && v.tables != [] && j < |v.tables|
    ensures KeysOk(v.tables[j], v.shift[j], StoreKey(v).key)
  {
    var table, key := v.tables[j], StoreKey(v).key;
    forall p | 0 <= p < |table| && key[table[p]].Some? ensures Slot(|table|, v.shift[j], key[table[p]].value) == p {
      if table[p] == NextEntry(v) {
        NewKeyFits(v, j, p);
      }
    }
  }

  lemma StoreKeyOld(v: View, j: nat)
    requires Ok(v) && v.tables != [] && HasRoom(v) && j < |v.tables| - 1
    requires Shape(StoreKey(v))
    ensures OldHeaderOk(StoreKey(v), j)
  {
    assert OldHeaderOk(v, j);
  }

  /** Block numbers a whole turn apart share a slot. */
  lemma SlotTurns(capacity: nat, shift: int, k: nat)
    requires capacity > 0
    ensures Slot(capacity, shift, k + capacity) == Slot(capacity, shift, k)
  {
    RemainderShift(k + shift, capacity, 1);
  }

  /** The base that goes to a slot replaces the oldest one, or the same rewound one. */
  lemma StoreKeyRange(table: seq<nat>, shift: int, slot: nat, key: seq<Option<nat>>, count: nat, high: nat)
    requires slot < |table| && slot == Slot(|table|, shift, count) && table[slot] < |key| && count <= high
    requires KeysOk(table, shift, key) && RangeOk(table, key, high) && high <= count + |table|
    ensures RangeOk(table, key[table[slot] := Some(count)], Max(high, count + 1))
  {
    var key' := key[table[slot] := Some(count)];
    forall p | 0 <= p < |table| && table[p] < |key'| && key'[table[p]].Some?
      ensures key'[table[p]].value < Max(high, count + 1) <= key'[table[p]].value + |table|
    {
      if table[p] != table[slot] {
        // were the base |table| below count, p would be the slot after the tail
        SlotTurns(|table|, shift, key[table[p]].value);
      }
    }
  }

  lemma StoreKeyHolds(table: seq<nat>, shift: int, key: seq<Option<nat>>, value: seq<Option<Block>>, k: nat, b: Block,
                      slot: nat, count: nat)
    requires slot < |table| && |key| == |value| && forall p :: 0 <= p < |table| ==> table[p] < |key|
    requires slot == Slot(|table|, shift, count)
    requires key[table[slot]].None? || value[table[slot]].None?
    requires Holds(table, shift, key, value, k, b) && count <= k + |table|
    ensures Holds(table, shift, key[table[slot] := Some(count)], value, k, b) && count + 1 <= k + |table|
  {
    SlotTurns(|table|, shift, k);
  }

  lemma StoreKeyNewest(table: seq<nat>, shift: int, tail: nat, key: seq<Option<nat>>, value: seq<Option<Block>>,
                       live: map<nat, Block>, count: nat, keyed: nat, high: nat, slot: nat)
    requires |table| > 0 && |key| == |value| && forall p :: 0 <= p < |table| ==> table[p] < |key|
    requires NewestOk(table, shift, tail, key, value, live, None, count, keyed, high) && KeysOk(table, shift, key)
    requires slot == (tail + 1) % |table| && Bounds(live, count)
    requires key[table[slot]].None? || value[table[slot]].None?
    ensures slot == Slot(|table|, shift, count)
    ensures NewestOk(table, shift, slot, key[table[slot] := Some(count)], value, live, Some(count),
                     count + 1, Min(keyed, count), Max(high, count + 1))
  {
    RemainderLeft(count - 1 + shift, 1, |table|);
    var key' := key[table[slot] := Some(count)];
    forall k | k in live ensures Holds(table, shift, key', value, k, live[k]) && count + 1 <= k + |table| {
      StoreKeyHolds(table, shift, key, value, k, live[k], slot, count);
    }
    StoreKeyRange(table, shift, slot, key, count, high);
    StoreKeyKeyed(table, shift, key, keyed, count, slot);
  }

  lemma StoreKeyKeyed(table: seq<nat>, shift: int, key: seq<Option<nat>>, keyed: nat, count: nat, slot: nat)
    requires slot < |table| && slot == Slot(|table|, shift, count) && forall p :: 0 <= p < |table| ==> table[p] < |key|
    requires KeyedOk(table, shift, key, keyed, count)
    ensures KeyedOk(table, shift, key[table[slot] := Some(count)], Min(keyed, count), count + 1)
  {
    var key' := key[table[slot] := Some(count)];
    forall m | Min(keyed, count) <= m < count + 1 ensures SlotKeyed(table, shift, key', m) {
      assert m < count ==> SlotKeyed(table, shift, key, m);
    }
  }

  lemma StoreKeyKeepsOk(v: View)
    requires Ok(v) && v.tables != [] && HasRoom(v) && Bounds(v.live, v.count) && v.pending == None
    ensures Ok(StoreKey(v))
    ensures StoreKey(v).key[NextEntry(v)] == Some(v.count)
    ensures NextEntry(v) == v.tables[Newest(v)][Slot(|v.tables[Newest(v)]|, v.shift[Newest(v)], v.count)]
  {
    var v' := StoreKey(v);
    NextSlotIsNext(v);
    forall j | 0 <= j < |v.tables| ensures KeysOk(v'.tables[j], v'.shift[j], v'.key) {
      StoreKeyKeys(v, j);
    }
    forall j | 0 <= j < |v.tables| - 1 ensures OldHeaderOk(v', j) {
      StoreKeyOld(v, j);
    }
    var n := Newest(v);
    StoreKeyNewest(v.tables[n], v.shift[n], v.tails[n], v.key, v.value, v.live, v.count, v.keyed, v.high, NextSlot(v));
  }

  lemma StoreValueNewest(table: seq<nat>, shift: int, tail: nat, key: seq<Option<nat>>, value: seq<Option<Block>>,
                         live: map<nat, Block>, pending: Option<nat>, count: nat, keyed: nat, high: nat, k: nat, b: Block)
    requires |table| > 0 && |key| == |value| && forall p :: 0 <= p < |table| ==> table[p] < |key|
    requires NewestOk(table, shift, tail, key, value, live, pending, count, keyed, high)
    requires k !in live && k + 1 == count && keyed <= k && (pending == Some(k) || pending == None)
    requires key[table[Slot(|table|, shift, k)]] == Some(k)
    ensures var e := table[Slot(|table|, shift, k)];
            NewestOk(table, shift, tail, key, value[e := Some(b)], live[k := b], None, count, keyed, high)
  {
    var value' := value[table[Slot(|table|, shift, k)] := Some(b)];
    var live' := live[k := b];
    forall m | m in live' ensures Holds(table, shift, key, value', m, live'[m]) {
      assert m != k ==> Holds(table, shift, key, value, m, live[m]);
    }
  }

  lemma StoreValueKeepsOk(v: View, e: nat, k: nat, b: Block)
    requires Ok(v) && v.tables != [] && k !in v.live && k + 1 == v.count && v.keyed <= k
    requires v.pending == Some(k) || v.pending == None
    requires e == v.tables[Newest(v)][Slot(|v.tables[Newest(v)]|, v.shift[Newest(v)], k)] && v.key[e] == Some(k)
    requires forall j :: 0 <= j < |v.tables| - 1 ==> v.seen[j] <= k
    ensures Ok(StoreValue(v, e, k, b))
  {
    forall j | 0 <= j < |v.tables| - 1 ensures OldHeaderOk(StoreValue(v, e, k, b), j) {
      assert OldHeaderOk(v, j);
    }
    var n := Newest(v);
    StoreValueNewest(v.tables[n], v.shift[n], v.tails[n], v.key, v.value, v.live, v.pending, v.count, v.keyed, v.high, k, b);
  }

  lemma StoreNullNewest(table: seq<nat>, shift: int, tail: nat, key: seq<Option<nat>>, value: seq<Option<Block>>,
                        live: map<nat, Block>, pending: Option<nat>, count: nat, keyed: nat, high: nat, q: nat)
    requires |table| > 0 && |key| == |value| && forall p :: 0 <= p < |table| ==> table[p] < |key|
    requires NewestOk(table, shift, tail, key, value, live, pending, count, keyed, high) && KeysOk(table, shift, key)
    requires q < |table| && key[table[q]].Some?
    ensures var e := table[q];
            NewestOk(table, shift, tail, key, value[e := None], live - {key[e].value},
                     if pending == key[e] then None else pending, count, keyed, high)
  {
    var e := table[q];
    forall m | m in live && m != key[e].value ensures Holds(table, shift, key, value[e := None], m, live[m]) {
      assert Holds(table, shift, key, value, m, live[m]);
    }
    // no two slots hold the same base
    assert forall p :: 0 <= p < |table| && key[table[p]] == key[e] ==> p == q;
  }

  lemma StoreNullKeepsOk(v: View, e: nat)
    requires Ok(v) && e < |v.key| && v.key[e].Some?
    ensures Ok(StoreNull(v, e))
  {
    assert Occurs(v.tables[Newest(v)], e);
    forall j | 0 <= j < |v.tables| - 1 ensures OldHeaderOk(StoreNull(v, e), j) {
      assert OldHeaderOk(v, j);
    }
    var n := Newest(v);
    var q :| 0 <= q < |v.tables[n]| && v.tables[n][q] == e;
    StoreNullNewest(v.tables[n], v.shift[n], v.tails[n], v.key, v.value, v.live, v.pending, v.count, v.keyed, v.high, q);
  }

  lemma RewindKeepsOk(v: View)
    requires Ok(v) && v.tables != [] && v.count > 0 && v.high < v.count + |v.tables[Newest(v)]|
    ensures Ok(Rewind(v))
  {
    var v', n := Rewind(v), Newest(v);
    RemainderLeft(v.count - 1 + v.shift[n], -1, |v.tables[n]|);
    forall j | 0 <= j < |v.tables| - 1 ensures OldHeaderOk(v', j) {
      assert OldHeaderOk(v, j);
    }
    assert NewestHeaderOk(v) ==> NewestHeaderOk(v');
  }

  // ---------- a larger header ----------

  /** The new header's entry pointers: the old ones, oldest block first, then the new entries. */
  function GrownTable(v: View): (table: seq<nat>)
    requires |v.tails| == |v.tables|
    requires v.tables != [] ==> |v.tables[Newest(v)]| > 0
    ensures v.tables != [] ==> |table| == 2 * |v.tables[Newest(v)]|
  {
    if v.tables == [] then seq(Circular.Pow2(v.initial), i => |v.key| + i)
    else
      var prev, tail := v.tables[Newest(v)], v.tails[Newest(v)];
      seq(|prev|, i requires 0 <= i => prev[(tail + 1 + i) % |prev|]) + seq(|prev|, i => |v.key| + i)
  }

  function FreshEntries(v: View): nat {
    if v.tables == [] then Circular.Pow2(v.initial) else |v.tables[Newest(v)]|
  }

  /** The oldest block whose base surely is in the new header. */
  function GrownKeyed(v: View): nat {
    if v.tables == [] || v.count <= |v.tables[Newest(v)]| then v.keyed
    else Max(v.keyed, v.count - |v.tables[Newest(v)]|)
  }

  /**
   new_block_index: `junk` is what the memory of the new entries holds in their pointers, and
   `published` the number of blocks a consumer may know of.
   */
  function Grow(v: View, junk: seq<Option<Block>>, published: nat): View
    requires |v.tables| == |v.tails| == |v.seen| == |v.tailKeyed|
    requires v.tables != [] ==> |v.tables[Newest(v)]| > 0
  {
    var added := FreshEntries(v);
    var first := v.tables == [];
    v.(key := v.key + seq(added, _ => None), value := v.value + junk,
       tables := v.tables + [GrownTable(v)], tails := v.tails + [added - 1],
       shift := v.shift + [if first then 0 else added - v.count],
       seen := (if first then [] else v.seen[Newest(v) := published]) + [0],
       tailKeyed := (if first then [] else v.tailKeyed[Newest(v) := v.keyed < v.count]) + [false],
       keyed := GrownKeyed(v))
  }

  /** Growing happens only when the entry after the tail is in use: then no rewound base is left. */
  lemma NoRoomMeansNoStaleKeys(v: View)
    requires Ok(v) && v.tables != [] && Bounds(v.live, v.count) && v.pending == None
    requires !HasRoom(v)
    ensures v.count == v.high
  {
    var n := Newest(v);
    var table := v.tables[n];
    var b := v.key[NextEntry(v)].value;
    NextSlotIsNext(v);
    if v.count < v.high {
      // the slot's base lies in (high - |table|, high) and has the remainder of count
      assert Slot(|table|, v.shift[n], b) == Slot(|table|, v.shift[n], v.count);
      NearAndSameSlot(b, v.count, v.shift[n], |table|);
    }
  }

  lemma NearAndSameSlot(a: nat, b: nat, shift: int, capacity: nat)
    requires capacity > 0 && Slot(capacity, shift, a) == Slot(capacity, shift, b)
    requires a < b + capacity && b < a + capacity
    ensures a == b
  {
    SameRemainder(a + shift, b + shift, -shift, capacity);
    DivisionIdentity(a, capacity);
    DivisionIdentity(b, capacity);
    var q := a / capacity - b / capacity;
    MulDistributes(a / capacity, b / capacity, capacity);
    if q >= 1 {
      MulAtLeast(q, capacity);
    } else if q <= -1 {
      MulAtLeast(-q, capacity);
      MulDistributes(0, q, capacity);
    }
  }

  /** The slot i + 1 after the tail, of block number count + i, is that of the block a turn before too. */
  lemma SlotBehindTail(c: nat, shift: int, count: nat, tail: nat, k: nat)
    requires c > 0 && tail == Slot(c, shift, count - 1) && k < count <= k + c
    ensures (tail + 1 + (k + c - count)) % c == Slot(c, shift, k)
    ensures Slot(2 * c, c - count, k) == k + c - count
  {
    SmallRemainder(k + c - count, 2 * c);
    SlotAfterTail(c, shift, count, tail, k + c - count);
    SlotTurns(c, shift, k);
  }

  /** Where a block number in the last |prev| ones moves to: its slot in the new header. */
  lemma GrownSlot(v: View, k: nat)
    requires Ok(v) && v.tables != [] && k < v.count <= k + |v.tables[Newest(v)]|
    ensures var c := |v.tables[Newest(v)]|;
            && Slot(2 * c, c - v.count, k) == k + c - v.count
            && GrownTable(v)[k + c - v.count] == v.tables[Newest(v)][Slot(c, v.shift[Newest(v)], k)]
  {
    var n := Newest(v);
    SlotBehindTail(|v.tables[n]|, v.shift[n], v.count, v.tails[n], k);
  }

  lemma GrowShape(v: View, junk: seq<Option<Block>>, published: nat)
    requires Ok(v) && |junk| == FreshEntries(v) && published <= v.count
    ensures Shape(Grow(v, junk, published))
  {
    if v.tables != [] {
      var n := Newest(v);
      assert |GrownTable(v)| == 2 * |v.tables[n]|;
      assert Circular.Pow2(v.initial + n + 1) == 2 * Circular.Pow2(v.initial + n);
    }
  }

  /** The slot p + 1 after the tail belongs to block number count + p. */
  lemma SlotAfterTail(c: nat, shift: int, count: nat, tail: nat, p: nat)
    requires c > 0 && tail == Slot(c, shift, count - 1)
    ensures (tail + 1 + p) % c == Slot(c, shift, count + p)
  {
    RemainderLeft(count - 1 + shift, 1 + p, c);
  }

  /** A base found there, of one of the last c blocks, is a whole turn back. */
  lemma BaseAfterTail(c: nat, shift: int, count: nat, tail: nat, p: nat, b: nat)
    requires c > 0 && tail == Slot(c, shift, count - 1) && p < c
    requires b < count <= b + c && Slot(c, shift, b) == (tail + 1 + p) % c
    ensures b + c == count + p
  {
    SlotAfterTail(c, shift, count, tail, p);
    SlotTurns(c, shift, b);
    NearAndSameSlot(b + c, count + p, shift, c);
  }

  /** The base copied to slot p of the new header is of block number count + p - |prev|. */
  lemma GrownKeyAt(v: View, p: nat)
    requires Ok(v) && v.tables != [] && v.count == v.high && p < |v.tables[Newest(v)]|
    requires v.key[GrownTable(v)[p]].Some?
    ensures v.key[GrownTable(v)[p]].value + |v.tables[Newest(v)]| == v.count + p
  {
    var n := Newest(v);
    var c := |v.tables[n]|;
    var r := (v.tails[n] + 1 + p) % c;
    assert KeysOk(v.tables[n], v.shift[n], v.key);
    assert RangeOk(v.tables[n], v.key, v.high);
    BaseAfterTail(c, v.shift[n], v.count, v.tails[n], p, v.key[v.tables[n][r]].value);
  }

  /** The bases copied to the new header are in their new slots. */
  lemma GrownKeys(v: View, key: seq<Option<nat>>)
    requires Ok(v) && v.tables != [] && v.count == v.high
    requires |key| == |v.key| + |v.tables[Newest(v)]|
    requires forall e :: 0 <= e < |key| ==> key[e] == if e < |v.key| then v.key[e] else None
    ensures KeysOk(GrownTable(v), |v.tables[Newest(v)]| - v.count, key)
    ensures RangeOk(GrownTable(v), key, v.high)
  {
    var table := GrownTable(v);
    var c := |v.tables[Newest(v)]|;
    forall p | 0 <= p < |table| && table[p] < |key| && key[table[p]].Some?
      ensures Slot(|table|, c - v.count, key[table[p]].value) == p
      ensures key[table[p]].value < v.high <= key[table[p]].value + |table|
    {
      GrownKeyAt(v, p);
      SmallRemainder(p, |table|);
    }
  }

  /** Rotating the newest header keeps slots in correspondence with a header of capacity `capacity`. */
  lemma RotationIsCongruent(c: nat, shift: int, count: nat, tail: nat, q: nat, capacity: nat, m: nat)
    requires c > 0 && tail == Slot(c, shift, count - 1) && m > 0 && capacity > 0 && c == m * capacity
    ensures ((tail + 1 + q) % c - shift) % capacity == (q - (c - count)) % capacity
  {
    SlotAfterTail(c, shift, count, tail, q);
    RemainderLeft(count + q + shift, -shift, c);
    RemainderShift(q + count, c, -1);
    CoarserRemainder((tail + 1 + q) % c - shift, q - (c - count), m, capacity);
  }

  lemma GrownLink(table: seq<nat>, shift: int, prev: seq<nat>, prevShift: int, tail: nat, count: nat, p: nat, q: nat, m: nat)
    requires LinksOk(table, shift, prev, prevShift) && p < |table| && q < |prev|
    requires tail == Slot(|prev|, prevShift, count - 1) && m > 0 && |prev| == m * |table|
    ensures table[p] == prev[(tail + 1 + q) % |prev|] ==> (p - shift) % |table| == (q - (|prev| - count)) % |table|
  {
    assert Linked(table, shift, prev, prevShift, p, (tail + 1 + q) % |prev|);
    RotationIsCongruent(|prev|, prevShift, count, tail, q, |table|, m);
  }

  /** The entries the new header shares with an older one are in corresponding slots. */
  lemma GrownLinks(v: View, j: nat)
    requires Ok(v) && j < |v.tables|
    ensures LinksOk(v.tables[j], v.shift[j], GrownTable(v), |v.tables[Newest(v)]| - v.count)
  {
    var n := Newest(v);
    var table, prev, grown, shift := v.tables[j], v.tables[n], GrownTable(v), |v.tables[n]| - v.count;
    var m := Circular.Pow2Divides(v.initial + j, v.initial + n);
    forall p, q | 0 <= p < |table| && 0 <= q < |grown| ensures Linked(table, v.shift[j], grown, shift, p, q) {
      if q < |prev| {
        GrownLink(table, v.shift[j], prev, v.shift[n], v.tails[n], v.count, p, q, m);
      }
    }
  }

  /** No entry is twice in the new header. */
  lemma GrownTableIsInjective(v: View, p: nat, q: nat)
    requires Ok(v) && v.tables != [] && p < |GrownTable(v)| && q < |GrownTable(v)|
    requires GrownTable(v)[p] == GrownTable(v)[q]
    ensures p == q
  {
    var n := Newest(v);
    var prev := v.tables[n];
    var c := |prev|;
    if p < c && q < c {
      var rp, rq := (v.tails[n] + 1 + p) % c, (v.tails[n] + 1 + q) % c;
      assert Linked(prev, v.shift[n], prev, v.shift[n], rp, rq);
      SameRemainder(rp - v.shift[n], rq - v.shift[n], v.shift[n], c);
      SmallRemainder(rp, c);
      SmallRemainder(rq, c);
      NearAndSameSlot(p, q, v.tails[n] + 1, c);
    }
  }

  /** The new header still has every entry. */
  lemma GrownTableCovers(v: View, e: nat)
    requires Ok(v) && v.tables != [] && e < |v.key| + |v.tables[Newest(v)]|
    ensures Occurs(GrownTable(v), e)
  {
    var n := Newest(v);
    var prev, tail, table := v.tables[n], v.tails[n], GrownTable(v);
    var c := |prev|;
    if e < |v.key| {
      assert Occurs(prev, e);
      var r :| 0 <= r < c && prev[r] == e;
      // the slot that is copied from slot r
      RemainderRight(r, tail + 1 - r, c);
      RemainderLeft(r - (tail + 1), tail + 1, c);
      SmallRemainder(r, c);
      assert table[(r - (tail + 1)) % c] == prev[r];
    } else {
      assert table[c + (e - |v.key|)] == e;
    }
  }

  lemma GrowFirstKeepsOk(v: View, junk: seq<Option<Block>>, published: nat)
    requires Ok(v) && v.tables == [] && |junk| == FreshEntries(v)
    ensures Ok(Grow(v, junk, published))
  {
    var v' := Grow(v, junk, published);
    var c := Circular.Pow2(v.initial);
    forall p | 0 <= p < c ensures v'.key[v'.tables[0][p]] == None {
      assert v'.tables[0][p] == |v.key| + p;
    }
    forall e | 0 <= e < c ensures Occurs(v'.tables[0], e) {
      assert v'.tables[0][e] == e;
    }
    assert v'.tables[0] == GrownTable(v);
    RemainderUnique(-1, c, -1, c - 1);
  }

  /** Blocks stay where they are in a header when entries are appended. */
  lemma HoldsFramed(table: seq<nat>, shift: int, key: seq<Option<nat>>, value: seq<Option<Block>>, key': seq<Option<nat>>,
                    value': seq<Option<Block>>, k: nat, b: Block)
    requires |table| > 0 && |key| == |value| && key <= key' && value <= value' && |key'| == |value'|
    requires forall p :: 0 <= p < |table| ==> table[p] < |key|
    requires Holds(table, shift, key, value, k, b)
    ensures Holds(table, shift, key', value', k, b)
  {
  }

  lemma OldOkFramed(table: seq<nat>, shift: int, tail: nat, key: seq<Option<nat>>, value: seq<Option<Block>>,
                    live: map<nat, Block>, seen: nat, tailKeyed: bool, key': seq<Option<nat>>, value': seq<Option<Block>>)
    requires tail < |table| && |key| == |value| && forall p :: 0 <= p < |table| ==> table[p] < |key|
    requires key <= key' && value <= value' && |key'| == |value'|
    requires OldOk(table, shift, tail, key, value, live, seen, tailKeyed)
    ensures OldOk(table, shift, tail, key', value', live, seen, tailKeyed)
  {
    forall k | k in live && k < seen ensures Holds(table, shift, key', value', k, live[k]) {
      HoldsFramed(table, shift, key, value, key', value', k, live[k]);
    }
  }

  /** The newest header keeps what it promises when it is replaced. */
  lemma NewestBecomesOld(table: seq<nat>, shift: int, tail: nat, key: seq<Option<nat>>, value: seq<Option<Block>>,
                         live: map<nat, Block>, pending: Option<nat>, count: nat, keyed: nat, high: nat, seen: nat)
    requires tail < |table| && |key| == |value| && forall p :: 0 <= p < |table| ==> table[p] < |key|
    requires NewestOk(table, shift, tail, key, value, live, pending, count, keyed, high) && seen <= count
    ensures OldOk(table, shift, tail, key, value, live, seen, keyed < count)
  {
    assert keyed < count ==> SlotKeyed(table, shift, key, count - 1);
  }

  lemma GrowOld(v: View, junk: seq<Option<Block>>, published: nat, j: nat)
    requires Ok(v) && v.tables != [] && |junk| == FreshEntries(v) && published <= v.count && j < |v.tables|
    requires Shape(Grow(v, junk, published))
    ensures OldHeaderOk(Grow(v, junk, published), j)
  {
    var v' := Grow(v, junk, published);
    if j < Newest(v) {
      assert OldHeaderOk(v, j);
    } else {
      NewestBecomesOld(v.tables[j], v.shift[j], v.tails[j], v.key, v.value, v.live, v.pending, v.count, v.keyed, v.high,
                       published);
    }
    assert v.key <= v'.key && v.value <= v'.value;
    OldOkFramed(v.tables[j], v.shift[j], v.tails[j], v.key, v.value, v.live, v'.seen[j], v'.tailKeyed[j], v'.key, v'.value);
  }

  /** What the entries' arrays look like once the new entries are appended. */
  ghost predicate Extended(v: View, key: seq<Option<nat>>, value: seq<Option<Block>>) {
    && v.tables != [] && |key| == |value| == |v.key| + |v.tables[Newest(v)]| && |v.value| == |v.key|
    && (forall e :: 0 <= e < |key| ==> key[e] == if e < |v.key| then v.key[e] else None)
    && (forall e :: 0 <= e < |v.value| ==> value[e] == v.value[e])
  }

  lemma GrowHolds(v: View, key: seq<Option<nat>>, value: seq<Option<Block>>, k: nat)
    requires Ok(v) && Extended(v, key, value) && Bounds(v.live, v.count) && k in v.live
    requires forall p :: 0 <= p < |GrownTable(v)| ==> GrownTable(v)[p] < |key|
    ensures Holds(GrownTable(v), |v.tables[Newest(v)]| - v.count, key, value, k, v.live[k])
  {
    var n := Newest(v);
    assert Holds(v.tables[n], v.shift[n], v.key, v.value, k, v.live[k]);
    GrownSlot(v, k);
  }

  lemma GrowKeyed(v: View, key: seq<Option<nat>>, value: seq<Option<Block>>)
    requires Ok(v) && Extended(v, key, value)
    requires forall p :: 0 <= p < |GrownTable(v)| ==> GrownTable(v)[p] < |key|
    ensures KeyedOk(GrownTable(v), |v.tables[Newest(v)]| - v.count, key, GrownKeyed(v), v.count)
  {
    var n := Newest(v);
    var prev, shift := v.tables[n], |v.tables[n]| - v.count;
    forall m | GrownKeyed(v) <= m < v.count ensures SlotKeyed(GrownTable(v), shift, key, m) {
      assert SlotKeyed(prev, v.shift[n], v.key, m);
      GrownSlot(v, m);
    }
  }

  lemma GrowBacked(v: View, key: seq<Option<nat>>, value: seq<Option<Block>>)
    requires Ok(v) && Extended(v, key, value)
    ensures BackedOk(GrownTable(v), key, value, v.live, v.pending)
  {
    var n, table := Newest(v), GrownTable(v);
    var c := |v.tables[n]|;
    forall p | 0 <= p < |table| && table[p] < |key| && key[table[p]].Some? && value[table[p]].Some?
      ensures key[table[p]].value in v.live || key[table[p]] == v.pending
    {
      assert table[p] == v.tables[n][(v.tails[n] + 1 + p) % c];
    }
  }

  lemma GrowNewest(v: View, key: seq<Option<nat>>, value: seq<Option<Block>>)
    requires Ok(v) && Extended(v, key, value) && Bounds(v.live, v.count) && v.count == v.high
    requires forall p :: 0 <= p < |GrownTable(v)| ==> GrownTable(v)[p] < |key|
    ensures var c := |v.tables[Newest(v)]|;
            NewestOk(GrownTable(v), c - v.count, c - 1, key, value, v.live, v.pending, v.count, GrownKeyed(v), v.high)
  {
    var c := |v.tables[Newest(v)]|;
    GrownKeys(v, key);
    SmallRemainder(c - 1, 2 * c);
    forall k | k in v.live ensures Holds(GrownTable(v), c - v.count, key, value, k, v.live[k]) {
      GrowHolds(v, key, value, k);
    }
    GrowKeyed(v, key, value);
    GrowBacked(v, key, value);
  }

  lemma GrowKeepsOk(v: View, junk: seq<Option<Block>>, published: nat)
    requires Ok(v) && |junk| == FreshEntries(v) && published <= v.count
    requires v.tables != [] ==> Bounds(v.live, v.count) && v.count == v.high
    ensures Ok(Grow(v, junk, published))
  {
    if v.tables == [] {
      GrowFirstKeepsOk(v, junk, published);
    } else {
      var v', n := Grow(v, junk, published), |v.tables|;
      GrowShape(v, junk, published);
      forall j | 0 <= j < n ensures OldHeaderOk(v', j) {
        GrowOld(v, junk, published, j);
      }
      forall j | 0 <= j <= n
        ensures KeysOk(v'.tables[j], v'.shift[j], v'.key) && LinksOk(v'.tables[j], v'.shift[j], v'.tables[n], v'.shift[n])
      {
        GrowHeader(v, junk, published, j);
      }
      GrowNewestHeader(v, junk, published);
      forall e | 0 <= e < |v'.key| ensures Occurs(v'.tables[n], e) {
        GrownTableCovers(v, e);
      }
    }
  }

  /** Growing appends to the entries' arrays and replaces the newest header. */
  lemma GrowFields(v: View, junk: seq<Option<Block>>, published: nat)
    requires Shape(v) && v.tables != [] && |junk| == FreshEntries(v)
    ensures var v' := Grow(v, junk, published);
            && Extended(v, v'.key, v'.value)
            && v'.tables[Newest(v')] == GrownTable(v)
            && v'.shift[Newest(v')] == |v.tables[Newest(v)]| - v.count
            && v'.tails[Newest(v')] == |v.tables[Newest(v)]| - 1
  {
  }

  lemma GrowNewestHeader(v: View, junk: seq<Option<Block>>, published: nat)
    requires Ok(v) && v.tables != [] && |junk| == FreshEntries(v)
    requires Bounds(v.live, v.count) && v.count == v.high && Shape(Grow(v, junk, published))
    ensures NewestHeaderOk(Grow(v, junk, published))
  {
    var v' := Grow(v, junk, published);
    GrowFields(v, junk, published);
    assert forall p :: 0 <= p < |v'.tables[Newest(v')]| ==> v'.tables[Newest(v')][p] < |v'.key|;
    GrowNewest(v, v'.key, v'.value);
  }

  lemma GrowHeader(v: View, junk: seq<Option<Block>>, published: nat, j: nat)
    requires Ok(v) && v.tables != [] && |junk| == FreshEntries(v) && v.count == v.high && j <= |v.tables|
    ensures var v', n := Grow(v, junk, published), |v.tables|;
            KeysOk(v'.tables[j], v'.shift[j], v'.key) && LinksOk(v'.tables[j], v'.shift[j], v'.tables[n], v'.shift[n])
  {
    GrowFields(v, junk, published);
    if j == |v.tables| {
      GrownKeys(v, Grow(v, junk, published).key);
      GrownSelfLinks(v);
    } else {
      GrownLinks(v, j);
      KeysFramed(v.tables[j], v.shift[j], v.key, Grow(v, junk, published).key);
    }
  }

  lemma KeysFramed(table: seq<nat>, shift: int, key: seq<Option<nat>>, key': seq<Option<nat>>)
    requires KeysOk(table, shift, key) && key <= key' && forall p :: 0 <= p < |table| ==> table[p] < |key|
    ensures KeysOk(table, shift, key')
  {
  }

  lemma GrownSelfLinks(v: View)
    requires Ok(v) && v.tables != []
    ensures var shift := |v.tables[Newest(v)]| - v.count; LinksOk(GrownTable(v), shift, GrownTable(v), shift)
  {
    var table := GrownTable(v);
    var shift := |v.tables[Newest(v)]| - v.count;
    forall p, q | 0 <= p < |table| && 0 <= q < |table| ensures Linked(table, shift, table, shift, p, q) {
      if table[p] == table[q] {
        GrownTableIsInjective(v, p, q);
      }
    }
  }

  /** After growing there is room: the entry after the tail is new. */
  lemma GrownHasRoom(v: View, junk: seq<Option<Block>>, published: nat)
    requires Ok(v) && v.tables != [] && |junk| == FreshEntries(v) && published <= v.count
    requires Shape(Grow(v, junk, published))
    ensures var v' := Grow(v, junk, published); v'.key[NextEntry(v')] == None && HasRoom(v')
  {
    var v', c := Grow(v, junk, published), |v.tables[Newest(v)]|;
    SmallRemainder(c, 2 * c);
    assert NextSlot(v') == c;
  }
}
