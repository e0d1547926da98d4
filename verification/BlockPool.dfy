/**
 Where blocks come from and go to, as a step machine over the free list's own steps.

 `requisition_block` takes a block of the initial pool, else one of the free list, else
 (if it may) a new one from the heap. Blocks are numbered: those of the initial pool are 0
 up to `size`, those of the heap follow in the order of their allocation. `owned[t]` is
 history: the blocks that t, a thread or the producer it works for, has got and not given back.
 */
module BlockPool {
  import opened Sums
  import FreeList

  datatype Pc =
    | Idle
    | Check(canAlloc: bool)    // load the pool's index
    | Fetch(canAlloc: bool)    // fetch_add it
    | Getting(canAlloc: bool)  // in the free list's try_get
    | Alloc                    // create a block
    | Adding                   // in the free list's add

  datatype State = State(size: nat, index: nat, heap: nat, list: FreeList.State, pcs: seq<Pc>, owned: seq<set<nat>>)

  datatype Action =
    | Requisition(t: nat, canAlloc: bool)
    | GiveBack(t: nat, n: nat)
    | Pass(t: nat, n: nat, u: nat)     // t leaves the block to u
    | Step(t: nat, memory: bool)       // memory: an allocation would succeed

  // ---------- transitions ----------

  ghost predicate Shape(s: State) {
    && |s.pcs| == |s.list.pcs| == |s.owned|
    && s.size <= s.heap <= |s.list.refs| == |s.list.stage|
    && FreeList.Shape(s.list)
    && forall t :: 0 <= t < |s.pcs| ==> Together(s.pcs[t], s.list.pcs[t])
  }

  predicate InAdd(pc: FreeList.Pc) {
    pc.AddFetch? || ((pc.PushLoad? || pc.PushNext? || pc.PushRefs? || pc.PushCas? || pc.PushRevert?) && pc.ret.ToCaller?)
  }

  predicate InGet(pc: FreeList.Pc) {
    !pc.Idle? && !InAdd(pc)
  }

  /** The two program counters of a thread fit. */
  predicate Together(pc: Pc, inList: FreeList.Pc) {
    if pc.Adding? then InAdd(inList) else if pc.Getting? then InGet(inList) else inList.Idle?
  }

  ghost predicate Enabled(s: State, a: Action) {
    && a.t < |s.pcs| == |s.owned|
    && match a
       case Requisition(t, _) => s.pcs[t].Idle?
       case GiveBack(t, n) => s.pcs[t].Idle? && n in s.owned[t] && n < |s.list.stage| && s.list.stage[n].Out?
       case Pass(t, n, u) => u < |s.pcs| && n in s.owned[t]
       case Step(t, _) => !s.pcs[t].Idle?
  }

  function Go(s: State, t: nat, pc: Pc): State
    requires t < |s.pcs|
  {
    s.(pcs := s.pcs[t := pc])
  }

  function Grant(s: State, t: nat, n: nat): State
    requires t < |s.owned|
  {
    s.(owned := s.owned[t := s.owned[t] + {n}])
  }

  function Drop(s: State, t: nat, n: nat): State
    requires t < |s.owned|
  {
    s.(owned := s.owned[t := s.owned[t] - {n}])
  }

  /** The call of try_get; it begins with a step of its own. */
  ghost function CallGet(s: State, t: nat, canAlloc: bool): State
    requires Shape(s) && t < |s.pcs| && s.list.pcs[t].Idle?
  {
    Go(s, t, Getting(canAlloc)).(list := FreeList.Next(s.list, FreeList.CallGet(t)))
  }

  ghost function FetchStep(s: State, t: nat, canAlloc: bool): State
    requires Shape(s) && t < |s.pcs| && s.pcs[t] == Fetch(canAlloc)
  {
    var s1 := s.(index := s.index + 1);
    if s.index < s.size then Grant(Go(s1, t, Idle), t, s.index) else CallGet(s1, t, canAlloc)
  }

  ghost function GetStep(s: State, t: nat, canAlloc: bool): State
    requires Shape(s) && t < |s.pcs| && s.pcs[t] == Getting(canAlloc)
  {
    var list := FreeList.StepOf(s.list, t);
    var s1 := s.(list := list);
    if s.list.pcs[t].GetSub2? then Grant(Go(s1, t, Idle), t, s.list.pcs[t].n)
    else if t < |list.pcs| && list.pcs[t].Idle? then Go(s1, t, if canAlloc then Alloc else Idle)
    else s1
  }

  ghost function AllocStep(s: State, t: nat, memory: bool): State
    requires Shape(s) && t < |s.pcs| && s.pcs[t] == Alloc
  {
    if memory && s.heap < |s.list.refs| then Grant(Go(s.(heap := s.heap + 1), t, Idle), t, s.heap) else Go(s, t, Idle)
  }

  ghost function AddStep(s: State, t: nat): State
    requires Shape(s) && t < |s.pcs| && s.pcs[t] == Adding
  {
    var list := FreeList.StepOf(s.list, t);
    var s1 := s.(list := list);
    if t < |list.pcs| && list.pcs[t].Idle? then Go(s1, t, Idle) else s1
  }

  ghost function StepOf(s: State, t: nat, memory: bool): State
    requires Shape(s) && t < |s.pcs| && !s.pcs[t].Idle?
  {
    match s.pcs[t]
    case Check(canAlloc) => if s.index >= s.size then CallGet(s, t, canAlloc) else Go(s, t, Fetch(canAlloc))
    case Fetch(canAlloc) => FetchStep(s, t, canAlloc)
    case Getting(canAlloc) => GetStep(s, t, canAlloc)
    case Alloc => AllocStep(s, t, memory)
    case Adding => AddStep(s, t)
  }

  ghost function GiveBackStep(s: State, t: nat, n: nat): State
    requires Shape(s) && Enabled(s, GiveBack(t, n))
  {
    Drop(Go(s, t, Adding), t, n).(list := FreeList.Next(s.list, FreeList.CallAdd(t, n)))
  }

  ghost function Next(s: State, a: Action): State
    requires Shape(s) && Enabled(s, a)
  {
    match a
    case Requisition(t, canAlloc) => Go(s, t, Check(canAlloc))
    case GiveBack(t, n) => GiveBackStep(s, t, n)
    case Pass(t, n, u) => Grant(Drop(s, t, n), u, n)
    case Step(t, memory) => StepOf(s, t, memory)
  }

  // ---------- the invariant ----------

  /** The block exists and has been given out at least once. */
  predicate Handed(s: State, n: nat) {
    (n < s.index && n < s.size) || s.size <= n < s.heap
  }

  ghost function Owns(n: nat): set<nat> -> nat {
    (blocks: set<nat>) => if n in blocks then 1 else 0
  }

  ghost function Owners(s: State, n: nat): nat {
    Sum(Owns(n), s.owned)
  }

  /** A block that is not in the free list's hands has one owner; one not yet given out is nowhere. */
  ghost predicate BlockOk(s: State, n: nat)
    requires n < |s.list.stage|
  {
    && Owners(s, n) == (if Handed(s, n) && s.list.stage[n].Out? then 1 else 0)
    && (!Handed(s, n) ==> s.list.stage[n].Out?)
  }

  ghost function AboutToFetch(): Pc -> nat {
    (pc: Pc) => if pc.Fetch? then 1 else 0
  }

  ghost predicate Inv(s: State) {
    && Shape(s)
    && FreeList.Inv(s.list)
    && s.index + Sum(AboutToFetch(), s.pcs) <= s.size + |s.pcs|
    && (forall t :: 0 <= t < |s.pcs| && (s.pcs[t].Getting? || s.pcs[t].Alloc?) ==> s.index >= s.size)
    && (forall n :: 0 <= n < |s.list.stage| ==> BlockOk(s, n))
    && (forall t, n :: 0 <= t < |s.owned| && n in s.owned[t] ==> n < |s.list.stage|)
  }

  ghost predicate Init(s: State) {
    && FreeList.Init(s.list)
    && |s.pcs| == |s.list.pcs| == |s.owned|
    && s.index == 0 && s.heap == s.size <= |s.list.refs|
    && forall t :: 0 <= t < |s.pcs| ==> s.pcs[t] == Idle && s.owned[t] == {}
  }

  lemma InitInv(s: State)
    requires Init(s)
    ensures Inv(s)
  {
    FreeList.InitInv(s.list);
    SumZero(AboutToFetch(), s.pcs);
    forall n | 0 <= n < |s.list.stage| ensures BlockOk(s, n) {
      SumZero(Owns(n), s.owned);
    }
  }

  // ---------- the free list's part ----------

  /** A step inside the free list: the sizes, and where its thread gets to. */
  lemma ListStepShape(l: FreeList.State, t: nat)
    requires FreeList.Shape(l) && t < |l.pcs| && !l.pcs[t].Idle?
    ensures var l' := FreeList.StepOf(l, t);
      && |l'.refs| == |l.refs| && |l'.stage| == |l.stage| && |l'.pcs| == |l.pcs| && l'.pcs == l.pcs[t := l'.pcs[t]]
      && (l.pcs[t].GetSub2? ==> l'.pcs[t].Idle?)
      && (InAdd(l.pcs[t]) ==> InAdd(l'.pcs[t]) || l'.pcs[t].Idle?)
      && (InGet(l.pcs[t]) ==> InGet(l'.pcs[t]) || l'.pcs[t].Idle?)
  {
    assert FreeList.NodesExist(l, l.pcs[t]);
  }

  /** Only the end of a pop puts a node in the clients' hands. */
  lemma ListStepOut(l: FreeList.State, t: nat, n: nat)
    requires FreeList.Inv(l) && t < |l.pcs| && !l.pcs[t].Idle? && n < |l.stage|
    ensures var l' := FreeList.StepOf(l, t);
      |l'.stage| == |l.stage| && (l'.stage[n].Out? <==> l.stage[n].Out? || l.pcs[t] == FreeList.GetSub2(n))
  {
    assert FreeList.NodesExist(l, l.pcs[t]) && FreeList.PcOk(l, l.pcs[t]);
    if l.pcs[t].GetCasHead? && l.head == FreeList.At(l.pcs[t].n) {
      FreeList.GetCasHeadList(l, t, l.pcs[t].n, l.pcs[t].nx);
    }
    if l.pcs[t].GetSub1? && l.refs[l.pcs[t].n] == FreeList.SHOULD_BE_ON_FREELIST + 1 {
      FreeList.GetSub1LastNode(l, t, l.pcs[t].n, l.pcs[t].h);
    }
  }

  /** The sets of nodes in the clients' hands are the same but for a node that a pop ends with. */
  lemma ListStep(l: FreeList.State, t: nat)
    requires FreeList.Inv(l) && t < |l.pcs| && !l.pcs[t].Idle?
    ensures var l' := FreeList.StepOf(l, t);
      && FreeList.Inv(l') && FreeList.Shape(l') && |l'.stage| == |l.stage|
      && (forall n :: 0 <= n < |l.stage| ==> (l'.stage[n].Out? <==> l.stage[n].Out? || l.pcs[t] == FreeList.GetSub2(n)))
      && (l.pcs[t].GetSub2? ==> l.pcs[t].n < |l.stage| && !l.stage[l.pcs[t].n].Out?)
  {
    hide FreeList.StepOf;
    FreeList.StepKeepsInv(l, t);
    assert FreeList.NodesExist(l, l.pcs[t]) && FreeList.PcOk(l, l.pcs[t]);
    var l' := FreeList.StepOf(l, t);
    if l.stage == [] {
      ListStepShape(l, t);
    } else {
      ListStepOut(l, t, 0);
    }
    forall n: nat | n < |l.stage| ensures l'.stage[n].Out? <==> l.stage[n].Out? || l.pcs[t] == FreeList.GetSub2(n) {
      ListStepOut(l, t, n);
    }
  }

  // ---------- one step ----------

  /** How ownership of every block moves with one thread's set. */
  lemma OwnersMove(s: State, owned: seq<set<nat>>, t: nat, blocks: set<nat>, n: nat)
    requires t < |s.owned| && owned == s.owned[t := blocks]
    ensures Sum(Owns(n), owned) + Owns(n)(s.owned[t]) == Owners(s, n) + Owns(n)(blocks)
  {
    SumUpdate(Owns(n), s.owned, t, blocks);
  }

  /** A step that grants nothing and moves the pool's index by as much as it takes threads off Fetch. */
  lemma OwnershipSame(s: State, s': State)
    requires Inv(s) && Shape(s') && FreeList.Inv(s'.list)
    requires s'.owned == s.owned && s'.size == s.size && s'.heap == s.heap && |s'.list.stage| == |s.list.stage|
    requires s'.index == s.index || (s'.index == s.index + 1 && s.index >= s.size)
    requires s'.index + Sum(AboutToFetch(), s'.pcs) <= s'.size + |s'.pcs|
    requires forall t :: 0 <= t < |s'.pcs| && (s'.pcs[t].Getting? || s'.pcs[t].Alloc?) ==> s'.index >= s'.size
    requires forall n :: 0 <= n < |s.list.stage| ==> (s'.list.stage[n].Out? <==> s.list.stage[n].Out?)
    ensures Inv(s')
  {
    forall n | 0 <= n < |s'.list.stage| ensures BlockOk(s', n) {
      assert BlockOk(s, n);
    }
  }

  /** A step that grants block b, which nobody had, to t. */
  lemma Granted(s: State, s': State, t: nat, b: nat)
    requires Inv(s) && Shape(s') && FreeList.Inv(s'.list)
    requires t < |s.owned| && b < |s.list.stage| == |s'.list.stage| && s'.owned == s.owned[t := s.owned[t] + {b}]
    requires s'.size == s.size && Handed(s', b) && s'.list.stage[b].Out? && !(Handed(s, b) && s.list.stage[b].Out?)
    requires forall n :: 0 <= n < |s.list.stage| && n != b ==>
               (Handed(s', n) <==> Handed(s, n)) && (s'.list.stage[n].Out? <==> s.list.stage[n].Out?)
    requires s'.index + Sum(AboutToFetch(), s'.pcs) <= s'.size + |s'.pcs|
    requires forall t :: 0 <= t < |s'.pcs| && (s'.pcs[t].Getting? || s'.pcs[t].Alloc?) ==> s'.index >= s'.size
    ensures Inv(s')
  {
    forall n | 0 <= n < |s'.list.stage| ensures BlockOk(s', n) {
      assert BlockOk(s, n);
      OwnersMove(s, s'.owned, t, s.owned[t] + {b}, n);
      SumAtLeast(Owns(n), s.owned, t);
    }
  }

  lemma FetchersMove(s: State, t: nat, pc: Pc)
    requires t < |s.pcs|
    ensures Sum(AboutToFetch(), s.pcs[t := pc]) + AboutToFetch()(s.pcs[t]) == Sum(AboutToFetch(), s.pcs) + AboutToFetch()(pc)
  {
    SumUpdate(AboutToFetch(), s.pcs, t, pc);
  }

  /** While a thread is elsewhere, fewer than all threads are about to fetch. */
  lemma FetchersBound(s: State, t: nat)
    requires t < |s.pcs| && !s.pcs[t].Fetch?
    ensures Sum(AboutToFetch(), s.pcs) < |s.pcs|
  {
    SumSlack(AboutToFetch(), One<Pc>(), s.pcs, t);
    SumOfOnes(s.pcs);
  }

  lemma CallGetKeepsInv(s: State, t: nat, canAlloc: bool, index: nat)
    requires Inv(s) && t < |s.pcs| && s.list.pcs[t].Idle?
    requires (s.pcs[t].Check? && index == s.index >= s.size) || (s.pcs[t].Fetch? && index == s.index + 1 > s.size)
    ensures Inv(CallGet(s.(index := index), t, canAlloc))
  {
    hide FreeList.Inv;
    FreeList.NextKeepsInv(s.list, FreeList.CallGet(t));
    FetchersMove(s, t, Getting(canAlloc));
    OwnershipSame(s, CallGet(s.(index := index), t, canAlloc));
  }

  lemma FetchKeepsInv(s: State, t: nat, canAlloc: bool)
    requires Inv(s) && t < |s.pcs| && s.pcs[t] == Fetch(canAlloc)
    ensures Inv(FetchStep(s, t, canAlloc))
  {
    if s.index < s.size {
      FetchersMove(s, t, Idle);
      assert BlockOk(s, s.index);
      Granted(s, FetchStep(s, t, canAlloc), t, s.index);
    } else {
      CallGetKeepsInv(s, t, canAlloc, s.index + 1);
    }
  }

  /** A block in the free list's hands has been given out once. */
  lemma NotOutIsHanded(s: State, n: nat)
    requires n < |s.list.stage| && BlockOk(s, n) && !s.list.stage[n].Out?
    ensures Handed(s, n)
  {
  }

  lemma GetKeepsInv(s: State, t: nat, canAlloc: bool)
    requires Inv(s) && t < |s.pcs| && s.pcs[t] == Getting(canAlloc)
    ensures Inv(GetStep(s, t, canAlloc))
  {
    hide FreeList.Inv, FreeList.StepOf, FreeList.Shape, BlockOk;
    var s' := GetStep(s, t, canAlloc);
    ListStep(s.list, t);
    ListStepShape(s.list, t);
    FetchersMove(s, t, s'.pcs[t]);
    assert s'.pcs == s.pcs[t := s'.pcs[t]];
    if s.list.pcs[t].GetSub2? {
      NotOutIsHanded(s, s.list.pcs[t].n);
      Granted(s, s', t, s.list.pcs[t].n);
    } else {
      OwnershipSame(s, s');
    }
  }

  lemma AllocKeepsInv(s: State, t: nat, memory: bool)
    requires Inv(s) && t < |s.pcs| && s.pcs[t] == Alloc
    ensures Inv(AllocStep(s, t, memory))
  {
    FetchersMove(s, t, Idle);
    if memory && s.heap < |s.list.refs| {
      assert BlockOk(s, s.heap);
      Granted(s, AllocStep(s, t, memory), t, s.heap);
    } else {
      OwnershipSame(s, AllocStep(s, t, memory));
    }
  }

  lemma AddKeepsInv(s: State, t: nat)
    requires Inv(s) && t < |s.pcs| && s.pcs[t] == Adding
    ensures Inv(AddStep(s, t))
  {
    hide FreeList.Inv, FreeList.StepOf, FreeList.Shape, BlockOk;
    var s' := AddStep(s, t);
    ListStep(s.list, t);
    ListStepShape(s.list, t);
    FetchersMove(s, t, s'.pcs[t]);
    assert s'.pcs == s.pcs[t := s'.pcs[t]];
    OwnershipSame(s, s');
  }

  lemma CheckKeepsInv(s: State, t: nat, canAlloc: bool)
    requires Inv(s) && t < |s.pcs| && s.pcs[t] == Check(canAlloc)
    ensures Inv(StepOf(s, t, false))
  {
    if s.index >= s.size {
      CallGetKeepsInv(s, t, canAlloc, s.index);
      assert s.(index := s.index) == s;
    } else {
      FetchersMove(s, t, Fetch(canAlloc));
      FetchersBound(s, t);
      OwnershipSame(s, Go(s, t, Fetch(canAlloc)));
    }
  }

  /** An owned block has been given out and is in no other hands. */
  lemma OwnedIsOut(s: State, t: nat, n: nat)
    requires Inv(s) && t < |s.owned| && n in s.owned[t]
    ensures n < |s.list.stage| && Handed(s, n) && s.list.stage[n].Out? && Owners(s, n) == 1
  {
    assert BlockOk(s, n);
    SumAtLeast(Owns(n), s.owned, t);
  }

  lemma GiveBackKeepsInv(s: State, t: nat, b: nat)
    requires Inv(s) && Enabled(s, GiveBack(t, b))
    ensures Inv(GiveBackStep(s, t, b))
  {
    hide FreeList.Inv;
    var s' := GiveBackStep(s, t, b);
    FreeList.NextKeepsInv(s.list, FreeList.CallAdd(t, b));
    FetchersMove(s, t, Adding);
    OwnedIsOut(s, t, b);
    forall n | 0 <= n < |s'.list.stage| ensures BlockOk(s', n) {
      assert BlockOk(s, n);
      OwnersMove(s, s'.owned, t, s.owned[t] - {b}, n);
    }
  }

  lemma PassKeepsInv(s: State, t: nat, b: nat, u: nat)
    requires Inv(s) && Enabled(s, Pass(t, b, u))
    ensures Inv(Next(s, Pass(t, b, u)))
  {
    hide FreeList.Inv, FreeList.Shape;
    var s1 := Drop(s, t, b);
    var s' := Next(s, Pass(t, b, u));
    OwnedIsOut(s, t, b);
    forall n | 0 <= n < |s'.list.stage| ensures BlockOk(s', n) {
      assert BlockOk(s, n);
      OwnersMove(s, s1.owned, t, s.owned[t] - {b}, n);
      OwnersMove(s1, s'.owned, u, s1.owned[u] + {b}, n);
      if n == b {
        SumAtLeast(Owns(n), s1.owned, u);
      }
    }
  }

  lemma NextKeepsInv(s: State, a: Action)
    requires Inv(s) && Enabled(s, a)
    ensures Inv(Next(s, a))
  {
    hide FreeList.Inv, FreeList.Shape, BlockOk, GetStep, AddStep, FetchStep, AllocStep;
    match a {
      case Requisition(t, canAlloc) =>
        FetchersMove(s, t, Check(canAlloc));
        OwnershipSame(s, Go(s, t, Check(canAlloc)));
      case GiveBack(t, n) => GiveBackKeepsInv(s, t, n);
      case Pass(t, n, u) => PassKeepsInv(s, t, n, u);
      case Step(t, memory) =>
        match s.pcs[t] {
          case Check(canAlloc) => CheckKeepsInv(s, t, canAlloc);
          case Fetch(canAlloc) => FetchKeepsInv(s, t, canAlloc);
          case Getting(canAlloc) => GetKeepsInv(s, t, canAlloc);
          case Alloc => AllocKeepsInv(s, t, memory);
          case Adding => AddKeepsInv(s, t);
        }
    }
  }

  /** A run: any threads, any interleaving. */
  ghost predicate IsRun(states: seq<State>, actions: seq<Action>) {
    && |states| == |actions| + 1
    && Init(states[0])
    && forall i :: 0 <= i < |actions| ==>
         Shape(states[i]) && Enabled(states[i], actions[i]) && states[i + 1] == Next(states[i], actions[i])
  }

  lemma {:induction false} RunsKeepInv(states: seq<State>, actions: seq<Action>, i: nat)
    requires IsRun(states, actions) && i < |states|
    ensures Inv(states[i])
  {
    if i == 0 {
      InitInv(states[0]);
    } else {
      RunsKeepInv(states, actions, i - 1);
      NextKeepsInv(states[i - 1], actions[i - 1]);
    }
  }

  // ---------- what is promised ----------

  /** In every state of every run a block has at most one owner. */
  lemma OneOwner(states: seq<State>, actions: seq<Action>, i: nat, n: nat, t: nat, u: nat)
    requires IsRun(states, actions) && i < |states|
    requires t < |states[i].owned| && u < |states[i].owned| && n in states[i].owned[t] && n in states[i].owned[u]
    ensures t == u
  {
    RunsKeepInv(states, actions, i);
    OwnedIsOut(states[i], t, n);
    if t != u {
      SumAtLeastTwo(Owns(n), states[i].owned, t, u);
    }
  }

  /** A requisition grants only a block that nobody owns and that is not on the list, or on its way to it, afterwards. */
  lemma GrantIsExclusive(s: State, t: nat, memory: bool, n: nat)
    requires Inv(s) && Enabled(s, Step(t, memory))
    requires n in Next(s, Step(t, memory)).owned[t] && n !in s.owned[t]
    ensures forall u :: 0 <= u < |s.owned| ==> n !in s.owned[u]
    ensures var l := Next(s, Step(t, memory)).list; n < |l.stage| && l.stage[n].Out? && n !in l.list
  {
    var s' := Next(s, Step(t, memory));
    NextKeepsInv(s, Step(t, memory));
    OwnedIsOut(s', t, n);
    assert n !in s'.list.list by {
      assert FreeList.NodeOk(s'.list, n);
    }
    hide Inv, BlockOk, FreeList.Inv, FreeList.Shape, FreeList.StepOf, FreeList.Next;
    forall u | 0 <= u < |s.owned| ensures n !in s.owned[u] {
      if n in s.owned[u] {
        assert s'.owned[u] == s.owned[u];
        SumAtLeastTwo(Owns(n), s'.owned, t, u);
      }
    }
  }

  /** The pool's index passes the pool by at most the number of threads, so its word never wraps. */
  lemma IndexIsBounded(states: seq<State>, actions: seq<Action>, i: nat)
    requires IsRun(states, actions) && i < |states|
    ensures states[i].index <= states[i].size + |states[i].pcs|
  {
    RunsKeepInv(states, actions, i);
  }

  /** No block is lost: with no call in progress, one given out is with its only owner or can be reached from the head. */
  lemma EveryBlockIsSomewhere(s: State, n: nat)
    requires Inv(s) && n < |s.list.stage|
    requires forall t :: 0 <= t < |s.pcs| ==> s.pcs[t] == Idle
    ensures Handed(s, n) ==>
              (Owners(s, n) == 1 <==> !exists k :: 0 <= k < |s.list.list| && FreeList.Follow(s.list.head, s.list.next, k) == FreeList.At(n))
    ensures Handed(s, n) ==> Owners(s, n) <= 1
    ensures !Handed(s, n) ==> Owners(s, n) == 0
  {
    assert BlockOk(s, n);
    forall t | 0 <= t < |s.list.pcs| ensures s.list.pcs[t] == FreeList.Idle {
      assert Together(s.pcs[t], s.list.pcs[t]);
    }
    FreeList.NothingIsLost(s.list, n);
    assert FreeList.NodeOk(s.list, n);
  }

  /** The head that thread t's try_get goes on with is null: the list was empty when it loaded it. */
  ghost predicate FoundEmpty(l: FreeList.State, t: nat)
    requires t < |l.pcs|
  {
    var pc := l.pcs[t];
    || (pc.GetLoad? && l.head == FreeList.Null)
    || (pc.GetSub1? && pc.h == FreeList.Null)
    || ((pc.PushCas? || pc.PushRevert?) && pc.ret == FreeList.ToGetLoop(FreeList.Null))
  }

  /** A thread comes to allocate only from a requisition that may, whose try_get has found the free list empty. */
  lemma ToAlloc(s: State, a: Action, t: nat)
    requires Inv(s) && Enabled(s, a) && t < |s.pcs| && Next(s, a).pcs[t] == Alloc && s.pcs[t] != Alloc
    ensures a.Step? && a.t == t && s.pcs[t] == Getting(true) && FoundEmpty(s.list, t) && s.index >= s.size
  {
    assert FreeList.NodesExist(s.list, s.list.pcs[a.t]);
    assert Together(s.pcs[a.t], s.list.pcs[a.t]);
  }

  /** t has found the list empty in step j, in a requisition that may allocate, and has been about to allocate since. */
  ghost predicate Asked(states: seq<State>, t: nat, j: nat, i: nat)
    requires j < i < |states|
  {
    && t < |states[j].pcs| == |states[j].list.pcs| && states[j].pcs[t] == Getting(true) && FoundEmpty(states[j].list, t)
    && forall k :: j < k <= i ==> t < |states[k].pcs| && states[k].pcs[t] == Alloc
  }

  lemma {:induction false} AllocWasAsked(states: seq<State>, actions: seq<Action>, i: nat, t: nat) returns (j: nat)
    requires IsRun(states, actions) && i < |states| && t < |states[i].pcs| && states[i].pcs[t] == Alloc
    ensures j < i && Asked(states, t, j, i)
  {
    hide Inv, Next, FoundEmpty, Enabled;
    assert i > 0;
    RunsKeepInv(states, actions, i - 1);
    SamePcs(states[i - 1], actions[i - 1]);
    if states[i - 1].pcs[t] == Alloc {
      j := AllocWasAsked(states, actions, i - 1, t);
    } else {
      ToAlloc(states[i - 1], actions[i - 1], t);
      j := i - 1;
    }
  }

  lemma SamePcs(s: State, a: Action)
    requires Inv(s) && Enabled(s, a)
    ensures |Next(s, a).pcs| == |s.pcs| == |s.list.pcs|
  {
    NextKeepsInv(s, a);
    if a.Step? && (s.pcs[a.t].Getting? || s.pcs[a.t].Adding?) {
      ListStepShape(s.list, a.t);
    }
  }

  /**
   In every run a block is created only when the initial pool is used up, one at a time, by a requisition that may
   allocate and has found the free list empty.
   */
  lemma OnlyAllocCreates(states: seq<State>, actions: seq<Action>, i: nat) returns (j: nat)
    requires IsRun(states, actions) && i < |actions| && states[i + 1].heap != states[i].heap
    ensures states[i + 1].heap == states[i].heap + 1 && states[i].index >= states[i].size
    ensures actions[i].Step? && actions[i].memory && j < i && Asked(states, actions[i].t, j, i)
  {
    RunsKeepInv(states, actions, i);
    j := AllocWasAsked(states, actions, i, actions[i].t);
  }

  // ---------- what a requisition that runs alone does ----------

  /** The state after t runs alone for up to k steps, while the heap gives blocks or does not. */
  ghost function Solo(s: State, t: nat, memory: bool, k: nat): State
    requires Inv(s) && t < |s.pcs|
    decreases k
  {
    if k == 0 || s.pcs[t].Idle? then s
    else
      NextKeepsInv(s, Step(t, memory));
      SamePcs(s, Step(t, memory));
      Solo(StepOf(s, t, memory), t, memory, k - 1)
  }

  lemma ShapeOfInv(s: State)
    requires Inv(s)
    ensures Shape(s) && FreeList.Inv(s.list) && FreeList.Shape(s.list)
  {
  }

  lemma SoloMore(s: State, t: nat, memory: bool, k: nat)
    requires Inv(s) && t < |s.pcs| == |s.owned| && !s.pcs[t].Idle?
    ensures Shape(s) && Inv(StepOf(s, t, memory)) && |StepOf(s, t, memory).pcs| == |s.pcs|
    ensures Solo(s, t, memory, k + 1) == Solo(StepOf(s, t, memory), t, memory, k)
  {
    NextKeepsInv(s, Step(t, memory));
    SamePcs(s, Step(t, memory));
  }

  lemma SoloOver(s: State, t: nat, memory: bool, k: nat)
    requires Inv(s) && t < |s.pcs| && s.pcs[t].Idle?
    ensures Solo(s, t, memory, k) == s
  {
  }

  lemma GoAgain(s: State, t: nat, pc: Pc, pc': Pc)
    requires t < |s.pcs|
    ensures Go(Go(s, t, pc), t, pc') == Go(s, t, pc') && Go(s, t, pc).pcs[t] == pc
    ensures s.pcs[t] == pc ==> Go(s, t, pc) == s
  {
    assert s.pcs[t := pc][t := pc'] == s.pcs[t := pc'];
  }

  predicate Listed(l: FreeList.State, n: nat) {
    n < |l.refs| == |l.next| == |l.stage| && 1 <= l.refs[n] < FreeList.SHOULD_BE_ON_FREELIST
  }

  /** In the k-th step of try_get, with block n at the head of the list. */
  ghost function Taking(s: State, t: nat, canAlloc: bool, n: nat, k: nat): State
    requires t < |s.pcs| == |s.list.pcs| && Listed(s.list, n)
  {
    Go(s, t, Getting(canAlloc)).(list := FreeList.GetState(s.list, t, n, k))
  }

  lemma TakingAdvances(s: State, t: nat, canAlloc: bool, memory: bool, n: nat, k: nat)
    requires Shape(s) && t < |s.pcs| == |s.owned| == |s.list.pcs| && s.pcs[t].Idle? && k <= 5
    requires s.list.head == FreeList.At(n) && Listed(s.list, n) && Shape(Taking(s, t, canAlloc, n, k))
    ensures !Taking(s, t, canAlloc, n, k).pcs[t].Idle?
    ensures StepOf(Taking(s, t, canAlloc, n, k), t, memory)
         == if k < 5 then Taking(s, t, canAlloc, n, k + 1) else Grant(s.(list := FreeList.Taken(s.list, n)), t, n)
  {
    hide FreeList.StepOf;
    FreeList.GetAdvances(s.list, t, n, k);
    GoAgain(s, t, Getting(canAlloc), Idle);
    GoAgain(s, t, Idle, Idle);
  }

  lemma {:induction false} SoloTaking(s: State, t: nat, canAlloc: bool, memory: bool, n: nat, k: nat)
    requires Shape(s) && t < |s.pcs| == |s.owned| == |s.list.pcs| && s.pcs[t].Idle? && k <= 5
    requires s.list.head == FreeList.At(n) && Listed(s.list, n) && Inv(Taking(s, t, canAlloc, n, k))
    ensures |Taking(s, t, canAlloc, n, k).pcs| == |s.pcs|
    ensures Solo(Taking(s, t, canAlloc, n, k), t, memory, 6 - k) == Grant(s.(list := FreeList.Taken(s.list, n)), t, n)
    decreases 5 - k
  {
    hide Inv, Shape, StepOf, Solo, FreeList.Taken, FreeList.GetState, FreeList.Shape;
    var s1 := Taking(s, t, canAlloc, n, k);
    ShapeOfInv(s1);
    TakingAdvances(s, t, canAlloc, memory, n, k);
    SoloMore(s1, t, memory, 5 - k);
    if k < 5 {
      SoloTaking(s, t, canAlloc, memory, n, k + 1);
    } else {
      SoloOver(StepOf(s1, t, memory), t, memory, 0);
    }
  }

  lemma SoloFromPool(s: State, t: nat, canAlloc: bool, memory: bool)
    requires Inv(s) && t < |s.pcs| && s.pcs[t].Idle? && s.index < s.size
    requires Inv(Next(s, Requisition(t, canAlloc)))
    ensures Solo(Next(s, Requisition(t, canAlloc)), t, memory, 7) == Grant(s.(index := s.index + 1), t, s.index)
  {
    hide Inv, Solo, FreeList.Shape, FreeList.Inv;
    ShapeOfInv(s);
    var s1 := Next(s, Requisition(t, canAlloc));
    var s2 := StepOf(s1, t, memory);
    GoAgain(s, t, Check(canAlloc), Fetch(canAlloc));
    SoloMore(s1, t, memory, 6);
    SoloMore(s2, t, memory, 5);
    GoAgain(s, t, Fetch(canAlloc), Idle);
    GoAgain(s, t, Idle, Idle);
    SoloOver(StepOf(s2, t, memory), t, memory, 5);
  }

  lemma SoloFromList(s: State, t: nat, canAlloc: bool, memory: bool)
    requires Inv(s) && t < |s.pcs| && s.pcs[t].Idle? && s.index >= s.size && s.list.list != []
    requires Inv(Next(s, Requisition(t, canAlloc)))
    ensures Listed(s.list, s.list.list[0])
    ensures Solo(Next(s, Requisition(t, canAlloc)), t, memory, 7)
         == Grant(s.(list := FreeList.Taken(s.list, s.list.list[0])), t, s.list.list[0])
  {
    hide Inv, Solo, FreeList.Shape, FreeList.Inv, FreeList.GetState, FreeList.Next, FreeList.StepOf;
    ShapeOfInv(s);
    var n := s.list.list[0];
    FreeList.HeadIsListed(s.list);
    FreeList.GetBegins(s.list, t, n);
    var s1 := Next(s, Requisition(t, canAlloc));
    GoAgain(s, t, Check(canAlloc), Getting(canAlloc));
    SoloMore(s1, t, memory, 6);
    SoloTaking(s, t, canAlloc, memory, n, 0);
  }

  /** With the pool used up and nothing on the list. */
  lemma SoloFromHeap(s: State, t: nat, canAlloc: bool, memory: bool)
    requires Inv(s) && t < |s.pcs| && s.pcs[t].Idle? && s.index >= s.size && s.list.list == []
    requires Inv(Next(s, Requisition(t, canAlloc)))
    ensures Solo(Next(s, Requisition(t, canAlloc)), t, memory, 7)
         == if canAlloc && memory && s.heap < |s.list.refs| then Grant(s.(heap := s.heap + 1), t, s.heap) else s
  {
    hide Inv, Solo, FreeList.Shape, FreeList.Inv;
    ShapeOfInv(s);
    FreeList.HeadIsListed(s.list);
    var s1 := Next(s, Requisition(t, canAlloc));
    var s2 := StepOf(s1, t, memory);
    GoAgain(s, t, Check(canAlloc), Getting(canAlloc));
    SoloMore(s1, t, memory, 6);
    SoloMore(s2, t, memory, 5);
    var s3 := StepOf(s2, t, memory);
    FreeList.GoAgain(s.list, t, FreeList.GetLoad, FreeList.Idle);
    FreeList.GoAgain(s.list, t, FreeList.Idle, FreeList.Idle);
    GoAgain(s, t, Getting(canAlloc), if canAlloc then Alloc else Idle);
    GoAgain(s, t, Idle, Idle);
    if canAlloc {
      GoAgain(s, t, Alloc, Idle);
      SoloMore(s3, t, memory, 4);
      SoloOver(StepOf(s3, t, memory), t, memory, 4);
    } else {
      SoloOver(s3, t, memory, 5);
    }
  }

  /**
   A requisition that runs alone, from any reachable state, is over within 7 steps. It gets the next block of the initial
   pool; else the first one of the free list; else one of the heap, if it may and the heap gives one. Only when none of the
   three is there does it come back with nothing, and then all is as it was.
   */
  lemma SoloRequisition(s: State, t: nat, canAlloc: bool, memory: bool)
    requires Inv(s) && t < |s.pcs| == |s.owned| && s.pcs[t].Idle?
    ensures Inv(Next(s, Requisition(t, canAlloc))) && t < |Next(s, Requisition(t, canAlloc)).pcs|
    ensures var s' := Solo(Next(s, Requisition(t, canAlloc)), t, memory, 7);
      if s.index < s.size then s' == Grant(s.(index := s.index + 1), t, s.index)
      else if s.list.list != [] then
        Listed(s.list, s.list.list[0]) && s' == Grant(s.(list := FreeList.Taken(s.list, s.list.list[0])), t, s.list.list[0])
      else if canAlloc && memory && s.heap < |s.list.refs| then s' == Grant(s.(heap := s.heap + 1), t, s.heap)
      else s' == s
  {
    hide Inv, Solo, Listed, Grant, FreeList.Taken;
    ShapeOfInv(s);
    NextKeepsInv(s, Requisition(t, canAlloc));
    if s.index < s.size {
      SoloFromPool(s, t, canAlloc, memory);
    } else if s.list.list != [] {
      SoloFromList(s, t, canAlloc, memory);
    } else {
      SoloFromHeap(s, t, canAlloc, memory);
    }
  }
}
