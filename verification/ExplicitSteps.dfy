/**
 The atomic steps of an explicit producer, as one type: what class Producer of module ExplicitProducer may do to the
 shared memory, and when.
 */
module ExplicitSteps {
  import opened BlockNumbers
  import opened BlockIndex
  import opened ExplicitState
  import opened ExplicitUpdates
  import opened ExplicitStages

  datatype Update<T> =
    | TakeBlock                                  // the block ahead becomes the tail block, and gets an entry
    | AddBlock(b: Block, count: nat)             // a new block goes into the ring, and gets an entry
    | EnlargeIndex(capacity: nat, exposed: nat)  // new_block_index
    | StoreFrontSlot                             // front.store
    | ResetBlock(k: nat)                         // reset_empty
    | ConstructCell(i: nat, x: T)                // construct element i
    | PublishItems(xs: seq<T>)                   // tailIndex.store
    | SetTail(tail: Option<Block>)
    | RestoreBlocks(start: State<T>, m: nat)     // a bulk enqueue gives up the m blocks it has taken since `start`

  /** The newest header, if there is one, is well formed. */
  ghost predicate HasIndex<T>(s: State<T>) {
    s.tables != [] && |s.shift| == |s.tables| == |s.fronts| && |s.tables[Last(s)]| > 0
  }

  ghost predicate CanUpdate<T>(s: State<T>, u: Update<T>) {
    && s.size > 0
    && match u
       case TakeBlock => HasIndex(s) && 0 < s.slots <= |s.blocks| && OldestIsDone(s)
       case AddBlock(b, _) =>
         HasIndex(s) && s.slots < |s.tables[Last(s)]| && NotInRing(s, b) && (s.tailBlock.Some? ==> s.tailBlock.value in s.next)
       case EnlargeIndex(capacity, exposed) =>
         && s.slots < capacity && s.slots <= |s.blocks| && s.kept == Oldest(s) && |s.seen| == |s.tables|
         && (s.slots > 0 ==> HasIndex(s)) && exposed <= s.slots && (s.published > 0 ==> exposed > 0)
       case StoreFrontSlot => HasIndex(s) && s.blocks != [] && s.kept < |s.blocks|
       case ResetBlock(k) => s.published <= k < |s.blocks| && Oldest(s) <= k
       case ConstructCell(i, _) => |s.items| <= i && Oldest(s) <= Number(i, s.size) < |s.blocks|
       case PublishItems(xs) =>
         && |s.items| + |xs| <= Base(|s.blocks|, s.size) && Constructed(s, xs, |xs|) && Untouched(s)
         && (s.blocks != [] ==> s.tables != [] && |s.fronts| == |s.tables| && FrontOk(s.tables[Last(s)], s.fronts[Last(s)]))
         && s.kept <= s.published && |s.done| <= |s.blocks|
       case SetTail(_) => true
       case RestoreBlocks(start, m) => Inv(start) && start.size > 0 && Settled(start) && Taking(start, s, m)
  }

  ghost function Apply<T>(s: State<T>, u: Update<T>): State<T>
    requires CanUpdate(s, u)
  {
    match u
    case TakeBlock => Take(s)
    case AddBlock(b, count) => Add(s, b, count).(next := Inserted(s, b))
    case EnlargeIndex(capacity, exposed) => Enlarge(s, capacity, exposed)
    case StoreFrontSlot => StoreFront(s)
    case ResetBlock(k) => Reset(s, k)
    case ConstructCell(i, x) => Construct(s, s.blocks[Number(i, s.size)], Offset(i, s.size), x)
    case PublishItems(xs) => Publish(s, xs)
    case SetTail(tail) => s.(tailBlock := tail)
    case RestoreBlocks(start, _) => Restored(start, s)
  }

  /** s' comes from s by this step. */
  ghost predicate Made<T>(s: State<T>, s': State<T>, u: Update<T>) {
    CanUpdate(s, u) && s' == Apply(s, u)
  }

  lemma EnlargeIsMade<T>(s: State<T>, capacity: nat, exposed: nat)
    requires Inv(s) && s.slots < capacity && s.kept == Oldest(s) && exposed <= s.slots && (s.published > 0 ==> exposed > 0)
    ensures s.slots <= |s.blocks| && |s.seen| == |s.tables| == |s.shift|
    ensures s.slots > 0 ==> s.tables != [] && |s.tables[Last(s)]| > 0
    ensures Made(s, Enlarge(s, capacity, exposed), EnlargeIndex(capacity, exposed))
  {
    NewestOfInv(s);
  }

  lemma RestoreIsMade<T>(start: State<T>, s: State<T>, m: nat)
    requires Inv(start) && start.size > 0 && Settled(start) && Taking(start, s, m)
    ensures Made(s, Restored(start, s), RestoreBlocks(start, m))
  {
    hide Inv, Settled;
  }

  lemma UpdateKeepsInv<T>(s: State<T>, u: Update<T>)
    requires Inv(s) && CanUpdate(s, u)
    ensures Inv(Apply(s, u))
  {
    hide Inv, Constructed, Untouched, NotInRing, Taking, Settled, Take, Add, Enlarge, StoreFront, Reset, Construct, Publish, Restored,
         Inserted, OldestIsDone;
    match u {
      case TakeBlock => TakeKeepsInv(s);
      case AddBlock(b, count) =>
        AddKeepsInv(s, b, count);
        NextDoesNotMatter(Add(s, b, count), Inserted(s, b));
      case EnlargeIndex(capacity, exposed) => EnlargeKeepsInv(s, capacity, exposed);
      case StoreFrontSlot => StoreFrontKeepsInv(s);
      case ResetBlock(k) => ResetKeepsInv(s, k);
      case ConstructCell(i, x) => ConstructKeepsInv(s, i, x);
      case PublishItems(xs) => PublishKeepsInv(s, xs);
      case SetTail(tail) => TailDoesNotMatter(s, tail);
      case RestoreBlocks(start, m) => RestoredKeepsInv(start, s, m);
    }
  }

  /** The producer appends elements and leaves the consumers' part alone. */
  lemma UpdateIsByProducer<T>(s: State<T>, u: Update<T>)
    requires CanUpdate(s, u)
    ensures var s' := Apply(s, u);
      && s'.size == s.size && s'.head == s.head && s'.flights == s.flights
      && s'.items == s.items + (if u.PublishItems? then u.xs else [])
  {
    hide Inv, Constructed, Untouched, NotInRing, Taking, Settled, Entered, Copied, Inserted, OldestIsDone;
  }
}
