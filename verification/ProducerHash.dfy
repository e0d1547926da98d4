/**
 The hash from thread ids to implicit producers: a chain of open-addressing tables.

 A thread's entry may still be in an older table; it is copied forward when its thread next
 asks for it. An exited thread's entries become tombstones, which count as used. All tables
 share one count, and the chain agrees with one map from live threads to producers.
 Operations are atomic with respect to each other here.
 */
module ProducerHash {
  import opened Sums
  import opened Remainders

  datatype Option<T> = None | Some(value: T)

  datatype Slot = Empty | Tomb | Entry(id: nat, producer: nat)

  type Table = seq<Slot>

  // ---------- one table ----------

  /** The i-th slot probed from hash h on. */
  function Probe(h: nat, i: nat, capacity: nat): (p: nat)
    requires capacity > 0
    ensures p < capacity
  {
    (h + i) % capacity
  }

  /** How many probes from hash h it takes to reach slot p. */
  function Distance(h: nat, p: nat, capacity: nat): (d: nat)
    requires capacity > 0
    ensures d < capacity
  {
    (p - h) % capacity
  }

  lemma ProbeReaches(h: nat, p: nat, capacity: nat)
    requires p < capacity
    ensures Probe(h, Distance(h, p, capacity), capacity) == p
  {
    RemainderLeft(p - h, h, capacity);
    SmallRemainder(p, capacity);
  }

  lemma ProbeStep(h: nat, i: nat, capacity: nat)
    requires capacity > 0
    ensures (Probe(h, i, capacity) + 1) % capacity == Probe(h, i + 1, capacity)
  {
    RemainderLeft(h + i, 1, capacity);
  }

  lemma ProbeZero(h: nat, capacity: nat)
    requires capacity > 0
    ensures h % capacity == Probe(h, 0, capacity)
  {
  }

  predicate IsEntryOf(s: Slot, id: nat) {
    s.Entry? && s.id == id
  }

  /** No empty slot is passed before slot p is reached from its id's hash. */
  ghost predicate Reachable(t: Table, hash: nat -> nat, p: nat)
    requires p < |t| && t[p].Entry?
  {
    forall i: nat :: i < Distance(hash(t[p].id), p, |t|) ==> t[Probe(hash(t[p].id), i, |t|)] != Empty
  }

  /** Every entry is found by probing, and an id has at most one. */
  ghost predicate TableOk(t: Table, hash: nat -> nat) {
    && |t| > 0
    && (forall p: nat :: p < |t| && t[p].Entry? ==> Reachable(t, hash, p))
    && (forall p: nat, q: nat :: p < |t| && q < |t| && t[p].Entry? && t[q].Entry? && t[p].id == t[q].id ==> p == q)
  }

  ghost predicate HasEmpty(t: Table) {
    exists p: nat :: p < |t| && t[p] == Empty
  }

  ghost predicate HasId(t: Table, id: nat) {
    exists p: nat :: p < |t| && IsEntryOf(t[p], id)
  }

  ghost function Used(): Slot -> nat {
    (s: Slot) => if s.Empty? then 0 else 1
  }

  /** A table that is not full of used slots has an empty one. */
  lemma {:induction false} RoomMeansEmpty(t: Table)
    requires Sum(Used(), t) < |t|
    ensures HasEmpty(t)
  {
    var last := |t| - 1;
    if t[last] != Empty {
      RoomMeansEmpty(t[..last]);
      var p: nat :| p < last && t[..last][p] == Empty;
      assert t[p] == Empty;
    }
  }

  /** The probe loop of get_or_add_implicit_producer: where id's entry is, or that it has none. */
  method Find(t: Table, h: nat, id: nat, ghost hash: nat -> nat) returns (r: Option<nat>)
    requires |t| > 0 && TableOk(t, hash) && HasEmpty(t) && h == hash(id)
    ensures r.Some? ==> r.value < |t| && IsEntryOf(t[r.value], id)
    ensures r.None? ==> !HasId(t, id)
  {
    hide TableOk, Probe, Distance;
    ghost var e: nat :| e < |t| && t[e] == Empty;
    ghost var limit := Distance(h, e, |t|);
    ProbeReaches(h, e, |t|);
    ProbeZero(h, |t|);
    var index := h;
    ghost var i: nat := 0;
    while true
      invariant i <= limit && index % |t| == Probe(h, i, |t|)
      invariant forall j: nat :: j < i ==> t[Probe(h, j, |t|)] != Empty && !IsEntryOf(t[Probe(h, j, |t|)], id)
      decreases limit - i
    {
      index := index % |t|;
      if IsEntryOf(t[index], id) {
        return Some(index);
      }
      if t[index] == Empty {
        NotFound(t, hash, id, i);
        return None;
      }
      ProbeStep(h, i, |t|);
      index := index + 1;
      i := i + 1;
    }
  }

  lemma NotFound(t: Table, hash: nat -> nat, id: nat, i: nat)
    requires TableOk(t, hash) && i < |t| && t[Probe(hash(id), i, |t|)] == Empty
    requires forall j: nat :: j < i ==> !IsEntryOf(t[Probe(hash(id), j, |t|)], id)
    ensures !HasId(t, id)
  {
    if HasId(t, id) {
      var p: nat :| p < |t| && IsEntryOf(t[p], id);
      ProbeReaches(hash(id), p, |t|);
    }
  }

  /** Slot p can be claimed for id: it is free, and every slot probed before it is an entry. */
  ghost predicate Claimable(t: Table, h: nat, p: nat)
    requires |t| > 0
  {
    && p < |t| && !t[p].Entry?
    && forall i: nat :: i < Distance(h, p, |t|) ==> t[Probe(h, i, |t|)].Entry?
  }

  /** The insertion loop: the first empty or reusable slot. */
  method FreeSlot(t: Table, h: nat) returns (p: nat)
    requires |t| > 0 && HasEmpty(t)
    ensures Claimable(t, h, p)
  {
    hide Probe, Distance;
    ghost var e: nat :| e < |t| && t[e] == Empty;
    ghost var limit := Distance(h, e, |t|);
    ProbeReaches(h, e, |t|);
    ProbeZero(h, |t|);
    var index := h;
    ghost var i: nat := 0;
    while true
      invariant i <= limit && index % |t| == Probe(h, i, |t|)
      invariant forall j: nat :: j < i ==> t[Probe(h, j, |t|)].Entry?
      decreases limit - i
    {
      index := index % |t|;
      if !t[index].Entry? {
        FirstIsNear(h, i, index, |t|);
        return index;
      }
      ProbeStep(h, i, |t|);
      index := index + 1;
      i := i + 1;
    }
  }

  lemma FirstIsNear(h: nat, i: nat, p: nat, capacity: nat)
    requires i < capacity && p == Probe(h, i, capacity)
    ensures Distance(h, p, capacity) == i
  {
    RemainderLeft(h + i, 0 - h, capacity);
    SmallRemainder(i, capacity);
  }

  /** Claiming a slot keeps the table in order. */
  lemma ClaimKeepsOk(t: Table, hash: nat -> nat, p: nat, id: nat, producer: nat)
    requires TableOk(t, hash) && Claimable(t, hash(id), p) && !HasId(t, id)
    ensures TableOk(t[p := Entry(id, producer)], hash)
  {
    var t' := t[p := Entry(id, producer)];
    forall q: nat | q < |t'| && t'[q].Entry? ensures Reachable(t', hash, q) {
      if q != p {
        assert Reachable(t, hash, q);
      }
    }
    forall q: nat, r: nat | q < |t'| && r < |t'| && t'[q].Entry? && t'[r].Entry? && t'[q].id == t'[r].id ensures q == r {
      assert q != p ==> !IsEntryOf(t[q], id);
      assert r != p ==> !IsEntryOf(t[r], id);
    }
  }

  /** A tombstone keeps the slots behind it reachable. */
  lemma BuryKeepsOk(t: Table, hash: nat -> nat, p: nat)
    requires TableOk(t, hash) && p < |t| && t[p].Entry?
    ensures TableOk(t[p := Tomb], hash) && !HasId(t[p := Tomb], t[p].id)
    ensures Sum(Used(), t[p := Tomb]) == Sum(Used(), t)
  {
    var t' := t[p := Tomb];
    SumUpdate(Used(), t, p, Tomb);
    forall q: nat | q < |t'| && t'[q].Entry? ensures Reachable(t', hash, q) {
      assert Reachable(t, hash, q);
    }
    forall q: nat | q < |t'| ensures !IsEntryOf(t'[q], t[p].id) {
    }
  }

  // ---------- ids ----------

  ghost function Ids(t: Table): set<nat> {
    set s | s in t && s.Entry? :: s.id
  }

  lemma IdsAre(t: Table, id: nat)
    ensures id in Ids(t) <==> HasId(t, id)
  {
    if HasId(t, id) {
      var p: nat :| p < |t| && IsEntryOf(t[p], id);
      assert t[p] in t;
    }
  }

  /** There are no more ids than used slots. */
  lemma {:induction false} IdsAreUsed(t: Table)
    ensures |Ids(t)| <= Sum(Used(), t)
  {
    if t != [] {
      var last := |t| - 1;
      IdsAreUsed(t[..last]);
      if t[last].Entry? {
        assert Ids(t) == Ids(t[..last]) + {t[last].id};
      } else {
        assert Ids(t) == Ids(t[..last]);
      }
    }
  }

  // ---------- the chain ----------

  /** Entries agree with the map. */
  ghost predicate Agrees(t: Table, owner: map<nat, nat>) {
    forall p: nat :: p < |t| && t[p].Entry? ==> t[p].id in owner && owner[t[p].id] == t[p].producer
  }

  ghost predicate Somewhere(tables: seq<Table>, id: nat) {
    exists j: nat :: j < |tables| && HasId(tables[j], id)
  }

  /** The chain stands for the map `owner` from live threads to producers. The newest table is the last. */
  ghost predicate ChainOk(tables: seq<Table>, hash: nat -> nat, owner: map<nat, nat>) {
    && tables != []
    && (forall j: nat :: j < |tables| ==> TableOk(tables[j], hash) && HasEmpty(tables[j]) && Agrees(tables[j], owner))
    && (forall id :: id in owner ==> Somewhere(tables, id))
  }

  function Main(tables: seq<Table>): Table
    requires tables != []
  {
    tables[|tables| - 1]
  }

  /** The shared count covers the used slots of the newest table and the threads whose entry is only in older ones. */
  ghost predicate Covers(main: Table, owner: map<nat, nat>, count: nat) {
    Sum(Used(), main) + |owner.Keys - Ids(main)| <= count
  }

  /** Different live threads have different producers, none of them inactive. */
  ghost predicate OwnersOk(owner: map<nat, nat>, producers: seq<Producer>) {
    && (forall a, b :: a in owner && b in owner && owner[a] == owner[b] ==> a == b)
    && (forall id :: id in owner ==>
          owner[id] < |producers| && !producers[owner[id]].inactive && !producers[owner[id]].isExplicit)
  }

  datatype Producer = Producer(isExplicit: bool, inactive: bool)

  /** The id is in no table. */
  ghost predicate Nowhere(tables: seq<Table>, id: nat) {
    forall j: nat :: j < |tables| ==> !HasId(tables[j], id)
  }

  /** What is in no table is not in the map. */
  lemma NowhereIsUnowned(tables: seq<Table>, hash: nat -> nat, owner: map<nat, nat>, id: nat)
    requires ChainOk(tables, hash, owner) && Nowhere(tables, id)
    ensures id !in owner
  {
  }

  /** There is room in the newest table for one more slot to be used. */
  lemma RoomForOne(t: Table, p: nat, s: Slot, owner: map<nat, nat>, count: nat)
    requires p < |t| && Covers(t, owner, count) && count + 1 < |t| && s.Entry?
    ensures HasEmpty(t[p := s])
  {
    SumUpdate(Used(), t, p, s);
    RoomMeansEmpty(t[p := s]);
  }

  lemma IdsAfterPut(t: Table, p: nat, id: nat, producer: nat)
    requires p < |t| && !t[p].Entry?
    ensures Ids(t[p := Entry(id, producer)]) == Ids(t) + {id}
  {
    var t' := t[p := Entry(id, producer)];
    forall x ensures x in Ids(t') <==> x in Ids(t) || x == id {
      IdsAre(t, x);
      IdsAre(t', x);
      if HasId(t, x) {
        var q: nat :| q < |t| && IsEntryOf(t[q], x);
        assert IsEntryOf(t'[q], x);
      }
      if HasId(t', x) {
        var q: nat :| q < |t'| && IsEntryOf(t'[q], x);
        assert q != p ==> IsEntryOf(t[q], x);
      }
      assert IsEntryOf(t'[p], id);
    }
  }

  /** Putting an id in the newest table: a new thread's, or one copied forward from an older table. */
  lemma PutKeepsChain(tables: seq<Table>, hash: nat -> nat, owner: map<nat, nat>, p: nat, id: nat, producer: nat)
    requires ChainOk(tables, hash, owner) && Claimable(Main(tables), hash(id), p) && !HasId(Main(tables), id)
    requires HasEmpty(Main(tables)[p := Entry(id, producer)]) && (id in owner ==> owner[id] == producer)
    requires id !in owner ==> Nowhere(tables, id)
    ensures ChainOk(tables[|tables| - 1 := Main(tables)[p := Entry(id, producer)]], hash, owner[id := producer])
  {
    var n, t' := |tables| - 1, Main(tables)[p := Entry(id, producer)];
    var tables' := tables[n := t'];
    ClaimKeepsOk(Main(tables), hash, p, id, producer);
    forall x | x in owner[id := producer] ensures Somewhere(tables', x) {
      if x == id {
        assert IsEntryOf(t'[p], id);
        assert HasId(tables'[n], id);
      } else {
        var j: nat :| j < |tables| && HasId(tables[j], x);
        var q: nat :| q < |tables[j]| && IsEntryOf(tables[j][q], x);
        assert IsEntryOf(tables'[j][q], x);
        assert HasId(tables'[j], x);
      }
    }
  }

  /** Copying forward uses a slot of the newest table, and one thread less is only in older ones. */
  lemma CopyCovers(t: Table, owner: map<nat, nat>, count: nat, p: nat, id: nat, producer: nat)
    requires Covers(t, owner, count) && p < |t| && !t[p].Entry? && id in owner && !HasId(t, id)
    ensures Covers(t[p := Entry(id, producer)], owner, count)
  {
    SumUpdate(Used(), t, p, Entry(id, producer));
    IdsAfterPut(t, p, id, producer);
    IdsAre(t, id);
    var missing := owner.Keys - Ids(t);
    assert owner.Keys - (Ids(t) + {id}) == missing - {id};
  }

  /** Inserting adds one to the count, unless a tombstone is used again. */
  lemma InsertCovers(t: Table, owner: map<nat, nat>, count: nat, p: nat, id: nat, producer: nat)
    requires Covers(t, owner, count) && p < |t| && !t[p].Entry? && id !in owner
    ensures Covers(t[p := Entry(id, producer)], owner[id := producer], if t[p] == Tomb then count else count + 1)
  {
    SumUpdate(Used(), t, p, Entry(id, producer));
    IdsAfterPut(t, p, id, producer);
    assert owner[id := producer].Keys - (Ids(t) + {id}) == owner.Keys - Ids(t);
  }

  function EmptyTable(capacity: nat): (t: Table)
    ensures |t| == capacity && forall p :: 0 <= p < capacity ==> t[p] == Empty
  {
    seq(capacity, _ => Empty)
  }

  lemma {:induction false} EmptyIsUnused(capacity: nat)
    ensures Sum(Used(), EmptyTable(capacity)) == 0 && Ids(EmptyTable(capacity)) == {}
  {
    if capacity > 0 {
      assert EmptyTable(capacity)[..capacity - 1] == EmptyTable(capacity - 1);
      EmptyIsUnused(capacity - 1);
    }
  }

  /** A new table starts empty: the count covers all threads of the tables before it. */
  lemma GrowCovers(t: Table, owner: map<nat, nat>, count: nat, capacity: nat)
    requires Covers(t, owner, count)
    ensures Covers(EmptyTable(capacity), owner, count)
  {
    EmptyIsUnused(capacity);
    IdsAreUsed(t);
    var missing := owner.Keys - Ids(t);
    var present := owner.Keys * Ids(t);
    assert owner.Keys == missing + present && missing !! present;
    Subset(present, Ids(t));
    assert owner.Keys - {} == owner.Keys;
  }

  lemma Subset(a: set<nat>, b: set<nat>)
    requires a <= b
    ensures |a| <= |b|
  {
    assert b == a + (b - a);
  }

  lemma GrowKeepsChain(tables: seq<Table>, hash: nat -> nat, owner: map<nat, nat>, capacity: nat)
    requires ChainOk(tables, hash, owner) && capacity > 0
    ensures ChainOk(tables + [EmptyTable(capacity)], hash, owner)
  {
    var tables' := tables + [EmptyTable(capacity)];
    assert EmptyTable(capacity)[0] == Empty;
    forall id | id in owner ensures Somewhere(tables', id) {
      var j: nat :| j < |tables| && HasId(tables[j], id);
      assert HasId(tables'[j], id);
    }
  }

  /** Burying an id in a table leaves the other ids where they are. */
  lemma BuryOthers(t: Table, p: nat, id: nat)
    requires p < |t| && t[p].Entry? && id != t[p].id
    ensures HasId(t[p := Tomb], id) <==> HasId(t, id)
  {
    if HasId(t, id) {
      var q: nat :| q < |t| && IsEntryOf(t[q], id);
      assert IsEntryOf(t[p := Tomb][q], id);
    }
    if HasId(t[p := Tomb], id) {
      var q: nat :| q < |t| && IsEntryOf(t[p := Tomb][q], id);
      assert IsEntryOf(t[q], id);
    }
  }

  lemma BuryEmpty(t: Table, p: nat)
    requires p < |t| && t[p].Entry? && HasEmpty(t)
    ensures HasEmpty(t[p := Tomb])
  {
    var e: nat :| e < |t| && t[e] == Empty;
    assert t[p := Tomb][e] == Empty;
  }

  /** The tables an exit has been through no longer have the id; the others are as they were. */
  ghost predicate Burying(tables: seq<Table>, tables': seq<Table>, hash: nat -> nat, id: nat, from: nat) {
    && |tables'| == |tables| && from <= |tables|
    && (forall j: nat :: j < from ==> tables'[j] == tables[j])
    && (forall j: nat :: from <= j < |tables| ==> Buried(tables[j], tables'[j], hash, id))
  }

  ghost predicate Buried(t: Table, t': Table, hash: nat -> nat, id: nat) {
    && TableOk(t', hash) && !HasId(t', id) && (HasEmpty(t) ==> HasEmpty(t')) && |t'| == |t|
    && Sum(Used(), t') == Sum(Used(), t)
    && (forall p: nat :: p < |t| && t'[p].Entry? ==> t'[p] == t[p])
    && (forall x :: x != id ==> (HasId(t', x) <==> HasId(t, x)))
  }

  lemma BuryOne(t: Table, hash: nat -> nat, p: nat)
    requires TableOk(t, hash) && p < |t| && t[p].Entry?
    ensures Buried(t, t[p := Tomb], hash, t[p].id)
  {
    BuryKeepsOk(t, hash, p);
    if HasEmpty(t) {
      BuryEmpty(t, p);
    }
    forall x | x != t[p].id ensures HasId(t[p := Tomb], x) <==> HasId(t, x) {
      BuryOthers(t, p, x);
    }
  }

  lemma BuriedChain(tables: seq<Table>, tables': seq<Table>, hash: nat -> nat, owner: map<nat, nat>, id: nat)
    requires ChainOk(tables, hash, owner) && Burying(tables, tables', hash, id, 0)
    ensures ChainOk(tables', hash, owner - {id})
  {
    forall j: nat | j < |tables'|
      ensures TableOk(tables'[j], hash) && HasEmpty(tables'[j]) && Agrees(tables'[j], owner - {id})
    {
      assert Buried(tables[j], tables'[j], hash, id);
      forall p: nat | p < |tables'[j]| && tables'[j][p].Entry? ensures tables'[j][p].id != id {
        assert !IsEntryOf(tables'[j][p], id);
      }
    }
    forall x | x in owner - {id} ensures Somewhere(tables', x) {
      var j: nat :| j < |tables| && HasId(tables[j], x);
      assert Buried(tables[j], tables'[j], hash, id);
      assert HasId(tables'[j], x);
    }
  }

  lemma BuriedCovers(t: Table, t': Table, hash: nat -> nat, owner: map<nat, nat>, count: nat, id: nat)
    requires Covers(t, owner, count) && Buried(t, t', hash, id)
    ensures Covers(t', owner - {id}, count)
  {
    var missing, missing' := owner.Keys - Ids(t), (owner - {id}).Keys - Ids(t');
    forall x | x in missing' ensures x in missing {
      IdsAre(t, x);
      IdsAre(t', x);
    }
    Subset(missing', missing);
  }

  lemma MainFacts(tables: seq<Table>, hash: nat -> nat, owner: map<nat, nat>)
    requires ChainOk(tables, hash, owner)
    ensures tables != [] && |Main(tables)| > 0 && HasEmpty(Main(tables)) && TableOk(Main(tables), hash)
  {
  }

  lemma ClaimableFacts(t: Table, h: nat, p: nat)
    requires |t| > 0 && Claimable(t, h, p)
    ensures p < |t| && !t[p].Entry?
  {
  }

  lemma PutIsThere(t: Table, p: nat, id: nat, producer: nat)
    requires p < |t|
    ensures HasId(t[p := Entry(id, producer)], id)
  {
    assert IsEntryOf(t[p := Entry(id, producer)][p], id);
  }

  lemma IsThere(t: Table, p: nat, id: nat)
    requires p < |t| && IsEntryOf(t[p], id)
    ensures HasId(t, id)
  {
  }

  lemma NowhereGrows(tables: seq<Table>, capacity: nat, id: nat)
    requires tables != [] && Nowhere(tables, id)
    ensures Nowhere(tables + [EmptyTable(capacity)], id) && !HasId(Main(tables), id) && !HasId(EmptyTable(capacity), id)
  {
  }

  lemma NowhereMain(tables: seq<Table>, id: nat)
    requires tables != [] && Nowhere(tables, id)
    ensures !HasId(Main(tables), id)
  {
  }

  /** Every table reserves room for the threads of the tables before it. */
  lemma RoomToCopy(t: Table, owner: map<nat, nat>, count: nat, id: nat)
    requires Covers(t, owner, count) && id in owner && !HasId(t, id) && (count == 0 || count < |t| / 2)
    ensures count + 1 < |t|
  {
    IdsAre(t, id);
    assert id in owner.Keys - Ids(t);
  }

  lemma TableFacts(tables: seq<Table>, hash: nat -> nat, owner: map<nat, nat>, j: nat)
    requires ChainOk(tables, hash, owner) && j < |tables|
    ensures |tables[j]| > 0 && TableOk(tables[j], hash) && HasEmpty(tables[j])
  {
  }

  lemma NothingToBury(t: Table, hash: nat -> nat, id: nat)
    requires TableOk(t, hash) && !HasId(t, id)
    ensures Buried(t, t, hash, id)
  {
  }

  lemma BuriedSizes(tables: seq<Table>, tables': seq<Table>, hash: nat -> nat, id: nat)
    requires Burying(tables, tables', hash, id, 0)
    ensures Nowhere(tables', id) && forall j: nat :: j < |tables'| ==> |tables'[j]| == |tables[j]|
  {
  }

  /** A producer that was inactive or did not exist is no live thread's. */
  lemma OwnersAfter(owner: map<nat, nat>, producers: seq<Producer>, producers': seq<Producer>, id: nat, r: nat)
    requires OwnersOk(owner, producers) && id !in owner && r < |producers'| && |producers| <= |producers'|
    requires producers'[r] == Producer(false, false) && (r < |producers| ==> producers[r].inactive)
    requires forall p: nat :: p < |producers| && p != r ==> producers'[p] == producers[p]
    ensures OwnersOk(owner, producers') && OwnersOk(owner[id := r], producers')
    ensures forall x :: x in owner ==> owner[x] != r
  {
  }

  lemma OwnersWithout(owner: map<nat, nat>, producers: seq<Producer>, id: nat)
    requires OwnersOk(owner, producers) && id in owner
    ensures owner[id] < |producers|
    ensures OwnersOk(owner - {id}, producers[owner[id] := producers[owner[id]].(inactive := true)])
  {
  }

  // ---------- what a new thread needs ----------

  /** There is an inactive producer of the kind. */
  predicate CanRecycle(producers: seq<Producer>, isExplicit: bool) {
    Producer(isExplicit, true) in producers
  }

  /** The newest inactive one of the kind is active again, or a new one comes last. */
  ghost predicate Recycled(before: seq<Producer>, after: seq<Producer>, isExplicit: bool, r: nat) {
    if CanRecycle(before, isExplicit) then
      && r < |before| && before[r] == Producer(isExplicit, true) && after == before[r := Producer(isExplicit, false)]
      && forall q: nat :: r < q < |before| ==> before[q] != Producer(isExplicit, true)
    else r == |before| && after == before + [Producer(isExplicit, false)]
  }

  /** The newest table is half full with this many. */
  predicate IsCrowded(table: Table, newCount: nat) {
    newCount >= |table| / 2
  }

  /** How many allocations it takes to add a thread: one for a larger table, one for a producer. */
  function Allocations(table: Table, count: nat, producers: seq<Producer>): nat {
    (if IsCrowded(table, count + 1) then 1 else 0) + (if CanRecycle(producers, false) then 0 else 1)
  }

  /** The slot the id is going to get has been used before. */
  ghost predicate ReusesSlot(table: Table, h: nat) {
    |table| > 0 && exists p: nat :: p < |table| && Claimable(table, h, p) && table[p] == Tomb
  }

  /** An empty table has no slot to use again. */
  lemma EmptyReusesNone(capacity: nat, h: nat)
    ensures !ReusesSlot(EmptyTable(capacity), h)
  {
  }

  /** The slot that the insertion loop ends at is the only one it can. */
  lemma ClaimableIsOne(t: Table, h: nat, p: nat, q: nat)
    requires |t| > 0 && Claimable(t, h, p) && Claimable(t, h, q)
    ensures p == q
  {
    hide Probe, Distance;
    ProbeReaches(h, p, |t|);
    ProbeReaches(h, q, |t|);
  }

  lemma SlotDecides(t: Table, h: nat, p: nat)
    requires |t| > 0 && p < |t| && Claimable(t, h, p)
    ensures ReusesSlot(t, h) <==> t[p] == Tomb
  {
    hide Claimable;
    ClaimableFacts(t, h, p);
    if ReusesSlot(t, h) {
      var q: nat :| q < |t| && Claimable(t, h, q) && t[q] == Tomb;
      ClaimableIsOne(t, h, p, q);
    }
  }

  // ---------- the registry ----------

  class Registry {
    const hash: nat -> nat
    var tables: seq<Table>              // the chain; implicitProducerHash is the last
    var count: nat                      // implicitProducerHashCount
    var producers: seq<Producer>        // the producer list, oldest first
    var memory: nat                     // how many allocations are granted before one is refused
    ghost var owner: map<nat, nat>      // the producer of each live thread

    ghost predicate Valid()
      reads this
    {
      && ChainOk(tables, hash, owner) && Covers(Main(tables), owner, count) && OwnersOk(owner, producers)
      && (count == 0 || count < |Main(tables)| / 2)
    }

    constructor (hash: nat -> nat, capacity: nat, memory: nat)
      requires capacity > 0
      ensures Valid() && owner == map[] && count == 0
    {
      this.hash, tables, count, producers, owner, this.memory := hash, [EmptyTable(capacity)], 0, [], map[], memory;
      new;
      EmptyIsUnused(capacity);
      assert Main(tables)[0] == Empty;
      assert owner.Keys - {} == {};
    }

    /** The search through the chain, newest table first. */
    method Search(id: nat) returns (where: Option<(nat, nat)>)
      requires Valid()
      ensures where.Some? ==> where.value.0 < |tables| && where.value.1 < |tables[where.value.0]|
      ensures where.Some? ==> IsEntryOf(tables[where.value.0][where.value.1], id)
      ensures where.Some? ==> forall j: nat :: where.value.0 < j < |tables| ==> !HasId(tables[j], id)
      ensures where.None? ==> Nowhere(tables, id)
    {
      hide Covers, OwnersOk, TableOk, HasEmpty, HasId, Agrees, Somewhere;
      var j := |tables|;
      while j > 0
        invariant j <= |tables|
        invariant forall m: nat :: j <= m < |tables| ==> !HasId(tables[m], id)
      {
        j := j - 1;
        TableFacts(tables, hash, owner, j);
        var r := Find(tables[j], hash(id), id, hash);
        if r.Some? {
          return Some((j, r.value));
        }
      }
      return None;
    }

    /** A request for memory; what is granted after a refusal is anything. */
    method Allocate() returns (ok: bool)
      modifies this`memory
      ensures (ok <==> old(memory) > 0) && (ok ==> memory == old(memory) - 1)
    {
      ok := memory > 0;
      if ok {
        memory := memory - 1;
      } else {
        memory := *;
      }
    }

    /** An inactive producer of the kind is used again, the newest first, or one is created; that fails only for want of memory. */
    method RecycleOrCreate(isExplicit: bool) returns (r: Option<nat>)
      modifies this`producers, this`memory
      ensures r.Some? <==> CanRecycle(old(producers), isExplicit) || old(memory) > 0
      ensures if r.Some? then Recycled(old(producers), producers, isExplicit, r.value) else producers == old(producers)
      ensures CanRecycle(old(producers), isExplicit) ==> memory == old(memory)
    {
      var p := |producers|;
      while p > 0
        invariant p <= |producers| && producers == old(producers) && memory == old(memory)
        invariant forall q: nat :: p <= q < |producers| ==> producers[q] != Producer(isExplicit, true)
      {
        p := p - 1;
        if producers[p].inactive && producers[p].isExplicit == isExplicit {
          producers := producers[p := Producer(isExplicit, false)];
          return Some(p);
        }
      }
      var ok := Allocate();
      if !ok {
        return None;
      }
      memory := *;                      // the producer makes requests of its own
      producers := producers + [Producer(isExplicit, false)];
      return Some(|producers| - 1);
    }

    /**
     The newest table is replaced by the smallest one, of twice the size at least, of which `newCount` is less than half; that
     fails only for want of memory.
     */
    method Resize(newCount: nat, ghost c: nat) returns (ok: bool)
      requires ChainOk(tables, hash, owner) && Covers(Main(tables), owner, c)
      modifies this`tables, this`memory
      ensures ChainOk(tables, hash, owner) && Covers(Main(tables), owner, c)
      ensures (ok <==> old(memory) > 0) && (ok ==> memory == old(memory) - 1)
      ensures if ok then
                && tables == old(tables) + [Main(tables)] && Main(tables) == EmptyTable(|Main(tables)|)
                && !IsCrowded(Main(tables), newCount) && |Main(tables)| >= 2 * |Main(old(tables))|
                && (|Main(tables)| == 2 * |Main(old(tables))| || newCount >= |Main(tables)| / 4)
              else tables == old(tables)
    {
      var newCapacity := |Main(tables)| * 2;
      while newCount >= newCapacity / 2
        invariant newCapacity >= 2 * |Main(tables)|
        invariant newCapacity == 2 * |Main(tables)| || newCount >= newCapacity / 4
        decreases newCount - newCapacity / 2
      {
        newCapacity := newCapacity * 2;
      }
      ok := Allocate();
      if ok {
        GrowCovers(Main(tables), owner, c, newCapacity);
        GrowKeepsChain(tables, hash, owner, newCapacity);
        tables := tables + [EmptyTable(newCapacity)];
      }
    }

    /** Put id in the newest table, in the first slot that is empty or a tombstone; c is the count without it. */
    method Put(id: nat, producer: nat, ghost c: nat) returns (reused: bool)
      requires ChainOk(tables, hash, owner) && Covers(Main(tables), owner, c) && !HasId(Main(tables), id)
      requires c + 1 < |Main(tables)|
      requires if id in owner then owner[id] == producer else Nowhere(tables, id)
      modifies this`tables, this`owner
      ensures ChainOk(tables, hash, owner) && owner == old(owner)[id := producer]
      ensures Covers(Main(tables), owner, if reused || id in old(owner) then c else c + 1)
      ensures |tables| == |old(tables)| && |Main(tables)| == |Main(old(tables))| && HasId(Main(tables), id)
      ensures reused <==> ReusesSlot(Main(old(tables)), hash(id))
    {
      hide ChainOk, Covers, TableOk, HasEmpty, HasId, Nowhere, Claimable, ReusesSlot;
      MainFacts(tables, hash, owner);
      var main := Main(tables);
      var p := FreeSlot(main, hash(id));
      ClaimableFacts(main, hash(id), p);
      SlotDecides(main, hash(id), p);
      reused := main[p] == Tomb;
      RoomForOne(main, p, Entry(id, producer), owner, c);
      if id in owner {
        CopyCovers(main, owner, c, p, id, producer);
        assert owner[id := producer] == owner;
      } else {
        InsertCovers(main, owner, c, p, id, producer);
      }
      ghost var main', owner' := main[p := Entry(id, producer)], owner[id := producer];
      assert Covers(main', owner', if reused || id in owner then c else c + 1);
      PutKeepsChain(tables, hash, owner, p, id, producer);
      PutIsThere(main, p, id, producer);
      Install(|tables| - 1, main[p := Entry(id, producer)]);
      owner := owner';
    }

    method Install(n: nat, t: Table)
      requires n + 1 == |tables|
      modifies this`tables
      ensures tables == old(tables)[n := t] && Main(tables) == t
    {
      tables := tables[n := t];
    }

    /** What adding thread id to a registry that had these fields has come to. */
    ghost predicate IsAdded(tables0: seq<Table>, count0: nat, producers0: seq<Producer>, memory0: nat, id: nat, r: Option<nat>)
      requires tables0 != []
      reads this
    {
      && tables != [] && (r.Some? <==> Allocations(Main(tables0), count0, producers0) <= memory0)
      && (if r.Some? then
            && Recycled(producers0, producers, false, r.value)
            && !IsCrowded(Main(tables), count0 + 1)
            && (if IsCrowded(Main(tables0), count0 + 1) then |tables| == |tables0| + 1 && count == count0 + 1
                else |tables| == |tables0| && |Main(tables)| == |Main(tables0)|
                     && count == count0 + (if ReusesSlot(Main(tables0), hash(id)) then 0 else 1))
          else producers == producers0 && count == count0)
    }

    /**
     get_or_add_implicit_producer: the thread's producer, found in any table, or for a new thread one that is used again or
     created. It fails exactly when that takes more memory than is granted, and then the count is as before.
     */
    method GetOrAdd(id: nat) returns (r: Option<nat>)
      requires Valid()
      modifies this
      ensures Valid()
      ensures id in old(owner) ==> r == Some(old(owner)[id]) && owner == old(owner)
      ensures id !in old(owner) ==> (if r.Some? then owner == old(owner)[id := r.value] else owner == old(owner) && count == old(count))
      ensures id !in old(owner) && r.Some? ==> forall x :: x in old(owner) ==> old(owner)[x] != r.value
      ensures r.Some? ==> HasId(Main(tables), id)
      ensures id in old(owner) ==> count == old(count) && producers == old(producers) && |tables| == |old(tables)|
      ensures id !in old(owner) ==> IsAdded(old(tables), old(count), old(producers), old(memory), id, r)
    {
      hide Covers, OwnersOk, TableOk, HasEmpty, HasId, Agrees, Somewhere, IsAdded;
      var found := Search(id);
      if found.Some? {
        r := Found(id, found.value.0, found.value.1);
        return;
      }
      NowhereIsUnowned(tables, hash, owner, id);
      r := Insert(id);
    }

    /** The id is in table j; if that is not the newest, it is copied forward. */
    method Found(id: nat, j: nat, p: nat) returns (r: Option<nat>)
      requires Valid() && j < |tables| && p < |tables[j]| && IsEntryOf(tables[j][p], id)
      requires forall m: nat :: j < m < |tables| ==> !HasId(tables[m], id)
      modifies this`tables, this`owner
      ensures Valid() && owner == old(owner) && id in owner && r == Some(owner[id])
      ensures HasId(Main(tables), id) && |tables| == |old(tables)|
    {
      hide Covers, OwnersOk, TableOk, HasEmpty, HasId, Somewhere;
      var producer := tables[j][p].producer;
      IsThere(tables[j], p, id);
      assert id in owner && owner[id] == producer;
      if j != |tables| - 1 {
        RoomToCopy(Main(tables), owner, count, id);
        var reused := Put(id, producer, count);
        assert owner == old(owner);
      }
      return Some(producer);
    }

    /** The newest table is less than half full with one more thread, or becomes so. */
    method MakeRoom(newCount: nat, id: nat, ghost c: nat) returns (ok: bool)
      requires ChainOk(tables, hash, owner) && Covers(Main(tables), owner, c) && Nowhere(tables, id)
      modifies this`tables, this`memory
      ensures ChainOk(tables, hash, owner) && Covers(Main(tables), owner, c) && Nowhere(tables, id) && !HasId(Main(tables), id)
      ensures if ok then !IsCrowded(Main(tables), newCount) else tables == old(tables)
      ensures if IsCrowded(Main(old(tables)), newCount)
              then (ok <==> old(memory) > 0)
                   && (ok ==> memory == old(memory) - 1 && |tables| == |old(tables)| + 1 && Main(tables) == EmptyTable(|Main(tables)|))
              else ok && memory == old(memory) && tables == old(tables)
    {
      hide Covers, HasId, TableOk, HasEmpty, Agrees, Somewhere, Nowhere;
      ok := true;
      NowhereMain(tables, id);
      if IsCrowded(Main(tables), newCount) {
        ok := Resize(newCount, c);
        NowhereGrows(old(tables), |Main(tables)|, id);
      }
    }

    /** A new thread. */
    method Insert(id: nat) returns (r: Option<nat>)
      requires Valid() && id !in owner && Nowhere(tables, id)
      modifies this
      ensures Valid()
      ensures if r.Some? then owner == old(owner)[id := r.value] else owner == old(owner) && count == old(count)
      ensures r.Some? ==> (forall x :: x in old(owner) ==> old(owner)[x] != r.value) && HasId(Main(tables), id)
      ensures IsAdded(old(tables), old(count), old(producers), old(memory), id, r)
    {
      hide Covers, HasId, OwnersOk, TableOk, HasEmpty, Agrees, Somewhere, Nowhere, ReusesSlot;
      MainFacts(tables, hash, owner);
      ghost var before := count;
      count := count + 1;
      var newCount := count;
      var ok := MakeRoom(newCount, id, before);
      if !ok {
        count := count - 1;
        return None;
      }
      // below half of the newest table by now, so below three quarters of it
      assert newCount < |Main(tables)| / 2 + |Main(tables)| / 4;
      EmptyReusesNone(|Main(tables)|, hash(id));
      ghost var producers0 := producers;
      r := RecycleOrCreate(false);
      if r.None? {
        count := count - 1;
        return;
      }
      OwnersAfter(owner, producers0, producers, id, r.value);
      var reused := Put(id, r.value, before);
      if reused {
        count := count - 1;
      }
    }

    /** The id's entry in table j, if it has one, becomes a tombstone. */
    method BuryIn(id: nat, j: nat)
      requires j < |tables| && |tables[j]| > 0 && TableOk(tables[j], hash) && HasEmpty(tables[j])
      modifies this`tables
      ensures |tables| == |old(tables)| && Buried(old(tables[j]), tables[j], hash, id)
      ensures forall m: nat :: m < |tables| && m != j ==> tables[m] == old(tables)[m]
    {
      hide TableOk, HasEmpty, HasId, Buried;
      var r := Find(tables[j], hash(id), id, hash);
      if r.Some? {
        BuryOne(tables[j], hash, r.value);
        tables := tables[j := tables[j][r.value := Tomb]];
      } else {
        NothingToBury(tables[j], hash, id);
      }
    }

    /**
     implicit_producer_thread_exited: the thread's entries become tombstones in every table, and its producer can be
     used again.
     */
    method Exit(id: nat, producer: nat)
      requires Valid() && id in owner && owner[id] == producer
      modifies this
      ensures Valid() && owner == old(owner) - {id} && count == old(count)
      ensures Nowhere(tables, id)
      ensures producers == old(producers)[producer := old(producers)[producer].(inactive := true)]
    {
      hide ChainOk, Covers, TableOk, HasEmpty, HasId, OwnersOk, Buried, Nowhere;
      MainFacts(tables, hash, owner);
      ghost var start := tables;
      var j: nat := |tables|;
      while j > 0
        invariant j <= |tables| && Burying(start, tables, hash, id, j)
        invariant owner == old(owner) && count == old(count) && producers == old(producers)
      {
        j := j - 1;
        TableFacts(start, hash, owner, j);
        BuryIn(id, j);
      }
      BuriedChain(start, tables, hash, owner, id);
      BuriedCovers(Main(start), Main(tables), hash, owner, count, id);
      BuriedSizes(start, tables, hash, id);
      OwnersWithout(owner, producers, id);
      producers := producers[producer := producers[producer].(inactive := true)];
      owner := owner - {id};
    }
  }
}
