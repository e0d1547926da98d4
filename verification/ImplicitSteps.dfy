/**
 The atomic steps of an implicit producer, as one type: what class Producer of module ImplicitProducer may do to the
 shared memory, and when.
 */
module ImplicitSteps {
  import opened BlockNumbers
  import opened BlockIndex
  import opened ImplicitState
  import opened ImplicitUpdates
  import C = ImplicitConsumer

  datatype Update<T> =
    | InsertBase                                  // insert_block_index_entry's stores
    | EnlargeIndex(junk: seq<Option<Block>>)      // new_block_index
    | UnwindTail                                  // rewind_block_index_tail
    | AcquireBlock(b: Block)                      // a block from the pool, reset
    | PutBlock(e: nat, k: nat, b: Block)          // entry->value.store(newBlock)
    | DisclaimEntry(e: nat)                       // entry->value.store(nullptr), no block was had
    | TakeBackBlock(e: nat)                       // entry->value.store(nullptr), a block is taken back
    | ReleaseBlock(b: Block)                      // a block goes back to the pool
    | ConstructCell(i: nat, x: T)                 // construct element i
    | PublishItems(xs: seq<T>)                    // tailIndex.store
    | SetTail(tail: Option<Block>)
    | SetLink(b: Block, n: Option<Block>)         // block->next = n
    | Elsewhere(cells: map<(Block, nat), T>, counter: map<Block, nat>, next: map<Block, Option<Block>>)  // other sub-queues' blocks

  ghost predicate CanUpdate<T>(s: State<T>, u: Update<T>) {
    && s.size > 0 && Shape(s.index)
    && match u
       case InsertBase => s.index.tables != [] && HasRoom(s.index) && Steady(s)
       case EnlargeIndex(junk) =>
         Steady(s) && |junk| == FreshEntries(s.index) && (s.index.tables != [] ==> s.index.count == s.index.high)
       case UnwindTail =>
         && s.index.tables != [] && |s.blocks| < s.index.count
         && s.index.high < s.index.count + |s.index.tables[Newest(s.index)]|
       case AcquireBlock(b) => b !in s.home
       case PutBlock(e, k, b) =>
         && s.index.tables != [] && k !in s.added && k + 1 == s.index.count && |s.blocks| <= k
         && s.index.pending == Some(k) && b in s.home && s.home[b] == None
         && e == s.index.tables[Newest(s.index)][Slot(|s.index.tables[Newest(s.index)]|, s.index.shift[Newest(s.index)], k)]
         && s.index.key[e] == Some(k) && s.index.keyed <= k
       case DisclaimEntry(e) =>
         e < |s.index.key| && s.index.key[e].Some? && s.index.key[e] == s.index.pending && s.index.key[e].value !in s.added
       case TakeBackBlock(e) => e < |s.index.key| && s.index.key[e].Some? && s.index.key[e].value in s.added
       case ReleaseBlock(b) => b in s.home && s.home[b] == None
       case ConstructCell(i, _) => |s.items| <= i && HasBlock(s, Number(i, s.size))
       case PublishItems(xs) =>
         && AddedInOrder(s) && |s.items| + |xs| <= Base(s.index.count, s.size)
         && s.index.pending == None && Constructed(s, xs, |xs|)
         && forall k :: k in s.added ==> s.added[k] in s.counter && s.counter[s.added[k]] == 0
       case SetTail(_) => true
       case SetLink(b, _) => b in s.home
       case Elsewhere(cells, counter, next) => C.SameAtHome(s, cells, counter, next)
  }

  ghost function Apply<T>(s: State<T>, u: Update<T>): State<T>
    requires CanUpdate(s, u)
  {
    match u
    case InsertBase => Insert(s)
    case EnlargeIndex(junk) => Enlarge(s, junk)
    case UnwindTail => Unwind(s)
    case AcquireBlock(b) => Acquire(s, b)
    case PutBlock(e, k, b) => Put(s, e, k, b)
    case DisclaimEntry(e) => Disclaim(s, e)
    case TakeBackBlock(e) => TakeBack(s, e)
    case ReleaseBlock(b) => Release(s, b)
    case ConstructCell(i, x) => Construct(s, BlockFor(s, Number(i, s.size)), Offset(i, s.size), x)
    case PublishItems(xs) => Publish(s, xs)
    case SetTail(tail) => s.(tailBlock := tail)
    case SetLink(b, n) => s.(next := s.next[b := n])
    case Elsewhere(cells, counter, next) => s.(cells := cells, counter := counter, next := next)
  }

  /** s' comes from s by this step. */
  ghost predicate Made<T>(s: State<T>, s': State<T>, u: Update<T>) {
    CanUpdate(s, u) && s' == Apply(s, u)
  }

  lemma UpdateKeepsInv<T>(s: State<T>, u: Update<T>)
    requires Inv(s) && CanUpdate(s, u)
    ensures Inv(Apply(s, u))
  {
    hide Inv, Shape, Steady, HasRoom, Constructed, HasBlock, AddedInOrder, Insert, Enlarge, Unwind, Acquire, Put, Disclaim,
         TakeBack, Release, Construct, Publish, C.SameAtHome;
    match u {
      case InsertBase => InsertKeepsInv(s);
      case EnlargeIndex(junk) => EnlargeKeepsInv(s, junk);
      case UnwindTail => UnwindKeepsInv(s);
      case AcquireBlock(b) => AcquireKeepsInv(s, b);
      case PutBlock(e, k, b) => PutKeepsInv(s, e, k, b);
      case DisclaimEntry(e) => DisclaimKeepsInv(s, e);
      case TakeBackBlock(e) => TakeBackKeepsInv(s, e);
      case ReleaseBlock(b) => ReleaseKeepsInv(s, b);
      case ConstructCell(i, x) => ConstructKeepsInv(s, i, x);
      case PublishItems(xs) => PublishKeepsInv(s, xs);
      case SetTail(tail) => LinksDoNotMatter(s, tail, s.next);
      case SetLink(b, n) => LinksDoNotMatter(s, s.tailBlock, s.next[b := n]);
      case Elsewhere(cells, counter, next) => C.OthersKeepInv(s, cells, counter, next);
    }
  }

  lemma EnlargeIsMade<T>(s: State<T>, junk: seq<Option<Block>>)
    requires s.size > 0 && Shape(s.index) && Steady(s) && |junk| == FreshEntries(s.index)
    requires s.index.tables != [] ==> s.index.count == s.index.high
    ensures Made(s, Enlarge(s, junk), EnlargeIndex(junk))
  {
  }

  lemma AcquireIsMade<T>(s: State<T>, b: Block)
    requires s.size > 0 && Shape(s.index) && b !in s.home
    ensures Made(s, Acquire(s, b), AcquireBlock(b))
  {
  }

  lemma TakeBackIsMade<T>(s: State<T>, e: nat)
    requires s.size > 0 && Shape(s.index) && e < |s.index.key| && s.index.key[e].Some? && s.index.key[e].value in s.added
    ensures |s.index.key| == |s.index.value| && Made(s, TakeBack(s, e), TakeBackBlock(e))
  {
  }

  lemma LinksAreMade<T>(s: State<T>)
    requires s.size > 0 && Shape(s.index)
    ensures forall tail :: Made(s, s.(tailBlock := tail), SetTail(tail))
    ensures forall b, n :: b in s.home ==> Made(s, s.(next := s.next[b := n]), SetLink(b, n))
  {
  }

  /** The consumers' part does not depend on the tail block and the links. */
  lemma LinksDoNotMatter<T>(s: State<T>, tail: Option<Block>, next: map<Block, Option<Block>>)
    requires Inv(s)
    ensures Inv(s.(tailBlock := tail)) && Inv(s.(next := next))
  {
  }

  /** The producer appends elements and leaves the consumers' part alone. */
  lemma UpdateIsByProducer<T>(s: State<T>, u: Update<T>)
    requires CanUpdate(s, u)
    ensures var s' := Apply(s, u);
      && s'.size == s.size && s'.head == s.head && s'.flights == s.flights
      && s'.items == s.items + (if u.PublishItems? then u.xs else [])
  {
    hide Shape, Steady, HasRoom, Constructed, HasBlock, AddedInOrder, C.SameAtHome, StoreKey, StoreValue, StoreNull, Grow, Rewind, Chain;
  }
}
