/**
 The lock-free free list of blocks, as a step machine.

 Any number of threads run `add` and `try_get`; one step is one atomic load, store,
 CAS or fetch-op, in a sequentially consistent order. A word `refs[n]` keeps the
 number of references to node n in its low 31 bits and "should be on the free list"
 in its top bit. `head`, `refs` and `next` are the program's memory, `pcs` the
 threads; `stage`, `list` and `log` are history, which no step reads.
 */
module FreeList {
  import opened Sums

  type Node = nat

  datatype Ptr = Null | At(node: Node)

  const SHOULD_BE_ON_FREELIST: nat := 0x8000_0000
  const WORD: nat := 0x1_0000_0000

  // One list reference and one reference a thread must fit under the top bit.
  const MAX_THREADS: nat := 0x7FFF_FFFE

  /** The contents of a 32-bit atomic. */
  type Word32 = w: nat | w < WORD

  /** The reference count in a word: its low 31 bits. */
  function Count(word: Word32): nat {
    if word < SHOULD_BE_ON_FREELIST then word else word - SHOULD_BE_ON_FREELIST
  }

  /** The top bit of a word. */
  predicate Flagged(word: Word32) {
    word >= SHOULD_BE_ON_FREELIST
  }

  /** 32-bit fetch_add and fetch_sub: the sum wraps around. */
  function Plus(word: Word32, k: int): Word32
    requires -0x1_0000_0000 <= k <= 0x1_0000_0000
  {
    if word + k < 0 then word + k + WORD
    else if word + k >= WORD then word + k - WORD
    else word + k
  }

  /** Where a call of the push routine returns to: `add`, or the loop of `try_get`. */
  datatype Return = ToCaller | ToGetLoop(head: Ptr)

  /** What a thread does next. The local variables still in use are the arguments. */
  datatype Pc =
    | Idle
    | AddFetch(n: Node)                         // set the bit
    | PushLoad(n: Node, ret: Return)            // load the head
    | PushNext(n: Node, h: Ptr, ret: Return)    // store next
    | PushRefs(n: Node, h: Ptr, ret: Return)    // store 1 to the word
    | PushCas(n: Node, h: Ptr, ret: Return)     // CAS the head
    | PushRevert(n: Node, h: Ptr, ret: Return)  // give the list reference back
    | GetLoad                                   // load the head
    | GetRefs(n: Node)                          // load the word
    | GetCasRef(n: Node, word: Word32)             // CAS the word to take a reference
    | GetNext(n: Node)                          // load next
    | GetCasHead(n: Node, nx: Ptr)              // CAS the head
    | GetSub2(n: Node)                          // drop the list's and our reference
    | GetSub1(n: Node, h: Ptr)                  // drop our reference

  /** Where a node is in its life. */
  datatype Stage =
    | Out      // in the hands of a client
    | Adding   // a thread is about to set its bit
    | Limbo    // bit set, references remain: the last one to drop its reference pushes
    | Claimed  // bit set, count zero: one thread is pushing
    | Raised   // count raised for the list, not on it yet
    | Listed   // on the list
    | Popped   // off the list, list reference not dropped yet

  datatype Event = Added(n: Node) | Got(n: Node)

  datatype State = State(
    head: Ptr, refs: seq<Word32>, next: seq<Ptr>, pcs: seq<Pc>,
    stage: seq<Stage>, list: seq<Node>, log: seq<Event>)

  datatype Action = CallAdd(t: nat, n: Node) | CallGet(t: nat) | Step(t: nat)

  // ---------- transitions ----------

  function LoopPc(h: Ptr): (pc: Pc)
    ensures pc.Idle? || (h.At? && pc == GetRefs(h.node))
  {
    match h
    case Null => Idle
    case At(n) => GetRefs(n)
  }

  function Resume(ret: Return): (pc: Pc)
    ensures pc.Idle? || pc.GetRefs?
  {
    match ret
    case ToCaller => Idle
    case ToGetLoop(h) => LoopPc(h)
  }

  predicate PtrOk(s: State, p: Ptr) {
    p.At? ==> p.node < |s.refs|
  }

  predicate ReturnOk(s: State, ret: Return) {
    ret.ToGetLoop? ==> PtrOk(s, ret.head)
  }

  /** Every node a thread mentions exists. */
  predicate NodesExist(s: State, pc: Pc) {
    && (pc.Idle? || pc.GetLoad? || pc.n < |s.refs|)
    && (pc.PushNext? || pc.PushRefs? || pc.PushCas? || pc.PushRevert? || pc.GetSub1? ==> PtrOk(s, pc.h))
    && (pc.PushLoad? || pc.PushNext? || pc.PushRefs? || pc.PushCas? || pc.PushRevert? ==> ReturnOk(s, pc.ret))
    && (pc.GetCasHead? ==> PtrOk(s, pc.nx))
  }

  ghost predicate Shape(s: State) {
    && |s.next| == |s.refs| == |s.stage|
    && |s.pcs| <= MAX_THREADS
    && PtrOk(s, s.head)
    && (forall n :: 0 <= n < |s.next| ==> PtrOk(s, s.next[n]))
    && (forall t :: 0 <= t < |s.pcs| ==> NodesExist(s, s.pcs[t]))
  }

  /** A client may add only a node it holds, and a thread runs one call at a time. */
  ghost predicate Enabled(s: State, a: Action) {
    && a.t < |s.pcs|
    && match a
       case CallAdd(t, n) => s.pcs[t].Idle? && n < |s.stage| && s.stage[n].Out?
       case CallGet(t) => s.pcs[t].Idle?
       case Step(t) => !s.pcs[t].Idle?
  }

  function Go(s: State, t: nat, pc: Pc): State
    requires t < |s.pcs|
  {
    s.(pcs := s.pcs[t := pc])
  }

  function SetRefs(s: State, n: Node, word: Word32): State
    requires n < |s.refs|
  {
    s.(refs := s.refs[n := word])
  }

  function SetStage(s: State, n: Node, stage: Stage): State
    requires n < |s.stage|
  {
    s.(stage := s.stage[n := stage])
  }

  // One function per kind of atomic step. Each is called with the pc it steps from.

  ghost function AddFetchStep(s: State, t: nat, n: Node): State
    requires Shape(s) && t < |s.pcs| && s.pcs[t] == AddFetch(n)
  {
    var s1 := SetRefs(s, n, Plus(s.refs[n], SHOULD_BE_ON_FREELIST));
    if s.refs[n] == 0 then SetStage(Go(s1, t, PushLoad(n, ToCaller)), n, Claimed)
    else SetStage(Go(s1, t, Idle), n, Limbo)
  }

  ghost function PushNextStep(s: State, t: nat, n: Node, h: Ptr, ret: Return): State
    requires Shape(s) && t < |s.pcs| && s.pcs[t] == PushNext(n, h, ret)
  {
    Go(s.(next := s.next[n := h]), t, PushRefs(n, h, ret))
  }

  ghost function PushRefsStep(s: State, t: nat, n: Node, h: Ptr, ret: Return): State
    requires Shape(s) && t < |s.pcs| && s.pcs[t] == PushRefs(n, h, ret)
  {
    SetStage(Go(SetRefs(s, n, 1), t, PushCas(n, h, ret)), n, Raised)
  }

  ghost function PushCasStep(s: State, t: nat, n: Node, h: Ptr, ret: Return): State
    requires Shape(s) && t < |s.pcs| && s.pcs[t] == PushCas(n, h, ret)
  {
    if s.head == h then
      SetStage(Go(s.(head := At(n), list := [n] + s.list), t, Resume(ret)), n, Listed)
    else
      Go(s, t, PushRevert(n, s.head, ret))
  }

  ghost function PushRevertStep(s: State, t: nat, n: Node, h: Ptr, ret: Return): State
    requires Shape(s) && t < |s.pcs| && s.pcs[t] == PushRevert(n, h, ret)
  {
    var s1 := SetRefs(s, n, Plus(s.refs[n], SHOULD_BE_ON_FREELIST - 1));
    if s.refs[n] == 1 then SetStage(Go(s1, t, PushNext(n, h, ret)), n, Claimed)
    else SetStage(Go(s1, t, Resume(ret)), n, Limbo)
  }

  ghost function GetCasRefStep(s: State, t: nat, n: Node, word: Word32): State
    requires Shape(s) && t < |s.pcs| && s.pcs[t] == GetCasRef(n, word)
  {
    if s.refs[n] == word then Go(SetRefs(s, n, Plus(word, 1)), t, GetNext(n))
    else Go(s, t, GetLoad)
  }

  ghost function GetCasHeadStep(s: State, t: nat, n: Node, nx: Ptr): State
    requires Shape(s) && t < |s.pcs| && s.pcs[t] == GetCasHead(n, nx)
  {
    if s.head == At(n) then
      SetStage(Go(s.(head := nx, list := if s.list == [] then [] else s.list[1..]), t, GetSub2(n)), n, Popped)
    else
      Go(s, t, GetSub1(n, s.head))
  }

  ghost function GetSub2Step(s: State, t: nat, n: Node): State
    requires Shape(s) && t < |s.pcs| && s.pcs[t] == GetSub2(n)
  {
    SetStage(Go(SetRefs(s, n, Plus(s.refs[n], -2)), t, Idle), n, Out).(log := s.log + [Got(n)])
  }

  ghost function GetSub1Step(s: State, t: nat, n: Node, h: Ptr): State
    requires Shape(s) && t < |s.pcs| && s.pcs[t] == GetSub1(n, h)
  {
    var s1 := SetRefs(s, n, Plus(s.refs[n], -1));
    if s.refs[n] == SHOULD_BE_ON_FREELIST + 1 then
      SetStage(Go(s1, t, PushLoad(n, ToGetLoop(h))), n, Claimed)
    else
      Go(s1, t, LoopPc(h))
  }

  /** The next step of a running thread. */
  ghost function StepOf(s: State, t: nat): State
    requires Shape(s) && t < |s.pcs| && !s.pcs[t].Idle?
  {
    match s.pcs[t]
    case AddFetch(n) => AddFetchStep(s, t, n)
    case PushLoad(n, ret) => Go(s, t, PushNext(n, s.head, ret))
    case PushNext(n, h, ret) => PushNextStep(s, t, n, h, ret)
    case PushRefs(n, h, ret) => PushRefsStep(s, t, n, h, ret)
    case PushCas(n, h, ret) => PushCasStep(s, t, n, h, ret)
    case PushRevert(n, h, ret) => PushRevertStep(s, t, n, h, ret)
    case GetLoad => Go(s, t, LoopPc(s.head))
    case GetRefs(n) => Go(s, t, if Count(s.refs[n]) == 0 then GetLoad else GetCasRef(n, s.refs[n]))
    case GetCasRef(n, word) => GetCasRefStep(s, t, n, word)
    case GetNext(n) => Go(s, t, GetCasHead(n, s.next[n]))
    case GetCasHead(n, nx) => GetCasHeadStep(s, t, n, nx)
    case GetSub2(n) => GetSub2Step(s, t, n)
    case GetSub1(n, h) => GetSub1Step(s, t, n, h)
  }

  ghost function Next(s: State, a: Action): State
    requires Shape(s) && Enabled(s, a)
  {
    match a
    case CallAdd(t, n) => SetStage(Go(s, t, AddFetch(n)), n, Adding).(log := s.log + [Added(n)])
    case CallGet(t) => Go(s, t, GetLoad)
    case Step(t) => StepOf(s, t)
  }

  // ---------- the invariant ----------

  /** A thread holds a reference to n, besides the list's own. */
  predicate HoldsRef(pc: Pc, n: Node) {
    (pc.GetNext? || pc.GetCasHead? || pc.GetSub2? || pc.GetSub1?) && pc.n == n
  }

  ghost function Holds(n: Node): Pc -> nat {
    (pc: Pc) => if HoldsRef(pc, n) then 1 else 0
  }

  ghost function Temp(s: State, n: Node): nat {
    Sum(Holds(n), s.pcs)
  }

  datatype Option<T> = None | Some(value: T)

  /** The stage a thread keeps its node in, if it is responsible for one. */
  function Duty(pc: Pc): Option<Stage> {
    match pc
    case AddFetch(_) => Some(Adding)
    case PushLoad(_, _) => Some(Claimed)
    case PushNext(_, _, _) => Some(Claimed)
    case PushRefs(_, _, _) => Some(Claimed)
    case PushCas(_, _, _) => Some(Raised)
    case PushRevert(_, _, _) => Some(Raised)
    case GetSub2(_) => Some(Popped)
    case _ => None
  }

  /** The next pointer a thread relies on, if any. */
  function KnownNext(pc: Pc): Option<Ptr> {
    match pc
    case PushRefs(_, h, _) => Some(h)
    case PushCas(_, h, _) => Some(h)
    case GetCasHead(_, nx) => Some(nx)
    case _ => None
  }

  predicate TendsNode(pc: Pc, n: Node) {
    Duty(pc).Some? && pc.n == n
  }

  ghost function Tends(n: Node): Pc -> nat {
    (pc: Pc) => if TendsNode(pc, n) then 1 else 0
  }

  ghost function Tenders(s: State, n: Node): nat {
    Sum(Tends(n), s.pcs)
  }

  ghost predicate Tended(stage: Stage) {
    stage.Adding? || stage.Claimed? || stage.Raised? || stage.Popped?
  }

  /** The word of a node: its bit, the list's reference and the threads' references. */
  function Word(stage: Stage, temp: nat): nat {
    (if stage.Limbo? || stage.Claimed? then SHOULD_BE_ON_FREELIST else 0)
    + (if stage.Raised? || stage.Listed? || stage.Popped? then 1 else 0)
    + temp
  }

  ghost predicate NodeOk(s: State, n: Node)
    requires n < |s.refs| == |s.stage|
  {
    && s.refs[n] == Word(s.stage[n], Temp(s, n))
    && Tenders(s, n) == (if Tended(s.stage[n]) then 1 else 0)
    && (s.stage[n].Claimed? ==> Temp(s, n) == 0)
    && (s.stage[n].Limbo? ==> Temp(s, n) > 0)
    && (s.stage[n].Listed? <==> n in s.list)
    && (s.stage[n].Out? <==> HeldByClient(s.log, n))
  }

  ghost predicate PcOk(s: State, pc: Pc)
    requires |s.refs| == |s.stage| == |s.next|
    requires NodesExist(s, pc)
  {
    && (Duty(pc).Some? ==> s.stage[pc.n] == Duty(pc).value)
    && (KnownNext(pc).Some? ==> s.next[pc.n] == KnownNext(pc).value)
    && (pc.GetCasRef? ==> Count(pc.word) != 0)
  }

  /** Following `next` from p visits exactly `list`, then ends. */
  ghost predicate Chain(p: Ptr, next: seq<Ptr>, list: seq<Node>)
    decreases |list|
  {
    if list == [] then p == Null
    else p == At(list[0]) && list[0] < |next| && Chain(next[list[0]], next, list[1..])
  }

  ghost predicate NoDuplicates(list: seq<Node>) {
    forall i, j :: 0 <= i < j < |list| ==> list[i] != list[j]
  }

  /** No event about n, or the last one gave n to a client. */
  ghost predicate HeldByClient(log: seq<Event>, n: Node) {
    if log == [] then true
    else
      var e := log[|log| - 1];
      if e.n == n then e.Got? else HeldByClient(log[..|log| - 1], n)
  }

  /** An add is of a node a client held; a node is returned only while no client holds it. */
  ghost predicate Disciplined(log: seq<Event>) {
    forall i :: 0 <= i < |log| ==> (log[i].Added? <==> HeldByClient(log[..i], log[i].n))
  }

  ghost predicate Inv(s: State) {
    && Shape(s)
    && (forall n :: 0 <= n < |s.refs| ==> NodeOk(s, n))
    && (forall t :: 0 <= t < |s.pcs| ==> PcOk(s, s.pcs[t]))
    && Chain(s.head, s.next, s.list)
    && NoDuplicates(s.list)
    && Disciplined(s.log)
  }

  ghost predicate Init(s: State) {
    && |s.next| == |s.refs| == |s.stage|
    && |s.pcs| <= MAX_THREADS
    && s.head == Null && s.list == [] && s.log == []
    && (forall n :: 0 <= n < |s.refs| ==> s.refs[n] == 0 && s.next[n] == Null && s.stage[n] == Out)
    && (forall t :: 0 <= t < |s.pcs| ==> s.pcs[t] == Idle)
  }

  lemma InitInv(s: State)
    requires Init(s)
    ensures Inv(s)
  {
    forall n | 0 <= n < |s.refs| ensures NodeOk(s, n) {
      SumZero(Holds(n), s.pcs);
      SumZero(Tends(n), s.pcs);
    }
  }

  // ---------- one step of one thread ----------

  /** How the two counts of every node move when thread t moves from its pc to another. */
  lemma CountsMove(pcs: seq<Pc>, t: nat, pc: Pc, n: Node)
    requires t < |pcs|
    ensures Sum(Holds(n), pcs[t := pc]) + Holds(n)(pcs[t]) == Sum(Holds(n), pcs) + Holds(n)(pc)
    ensures Sum(Tends(n), pcs[t := pc]) + Tends(n)(pcs[t]) == Sum(Tends(n), pcs) + Tends(n)(pc)
  {
    SumUpdate(Holds(n), pcs, t, pc);
    SumUpdate(Tends(n), pcs, t, pc);
  }

  /** Only one thread tends a node. */
  lemma OneTender(s: State, n: Node, t: nat, u: nat)
    requires Inv(s) && n < |s.refs| && t < |s.pcs| && u < |s.pcs| && t != u
    requires Tends(n)(s.pcs[t]) == 1
    ensures Tends(n)(s.pcs[u]) == 0
  {
    assert NodeOk(s, n);
    SumAtLeastTwo(Tends(n), s.pcs, t, u);
  }

  /** The threads' references never reach the top bit. */
  lemma TempBound(s: State, n: Node)
    requires Shape(s)
    ensures Temp(s, n) <= |s.pcs| <= MAX_THREADS
  {
    SumMonotone(Holds(n), One(), s.pcs);
    SumOfOnes(s.pcs);
  }

  /** A thread holding a reference to n: n's word is not zero, so n's next is frozen. */
  lemma HolderKeepsNode(s: State, t: nat)
    requires Inv(s) && t < |s.pcs|
    requires s.pcs[t].GetNext? || s.pcs[t].GetCasHead? || s.pcs[t].GetSub2? || s.pcs[t].GetSub1?
    ensures Temp(s, s.pcs[t].n) > 0
    ensures !s.stage[s.pcs[t].n].Claimed?
  {
    SumAtLeast(Holds(s.pcs[t].n), s.pcs, t);
    assert NodeOk(s, s.pcs[t].n);
  }

  /** The list survives a store to the next pointer of a node that is not on it. */
  lemma {:induction false} ChainFrame(p: Ptr, next: seq<Ptr>, list: seq<Node>, n: Node, q: Ptr)
    requires Chain(p, next, list) && n < |next| && n !in list
    ensures Chain(p, next[n := q], list)
    decreases |list|
  {
    if list != [] {
      ChainFrame(next[list[0]], next, list[1..], n, q);
    }
  }

  lemma LogGrows(log: seq<Event>, e: Event, n: Node)
    ensures HeldByClient(log + [e], n) == if e.n == n then e.Got? else HeldByClient(log, n)
  {
    assert (log + [e])[..|log|] == log;
  }

  lemma DisciplineGrows(log: seq<Event>, e: Event)
    requires Disciplined(log)
    requires e.Added? <==> HeldByClient(log, e.n)
    ensures Disciplined(log + [e])
  {
    var log' := log + [e];
    forall i | 0 <= i < |log'| ensures log'[i].Added? <==> HeldByClient(log'[..i], log'[i].n) {
      if i < |log| {
        assert log'[..i] == log[..i];
      } else {
        assert log'[..i] == log;
      }
    }
  }

  /** Threads other than t do not notice a step of t about node m. */
  lemma OthersOk(s: State, s': State, t: nat, m: Node)
    requires Inv(s) && t < |s.pcs| == |s'.pcs| && m < |s.refs|
    requires |s'.refs| == |s'.stage| == |s'.next| == |s.refs|
    requires forall u :: 0 <= u < |s.pcs| && u != t ==> s'.pcs[u] == s.pcs[u]
    requires forall n :: 0 <= n < |s.refs| && n != m ==> s'.stage[n] == s.stage[n] && s'.next[n] == s.next[n]
    requires s'.stage[m] == s.stage[m] || TendsNode(s.pcs[t], m) || !Tended(s.stage[m])
    requires s'.next[m] == s.next[m] || (s.stage[m].Claimed? && TendsNode(s.pcs[t], m))
    ensures forall u :: 0 <= u < |s.pcs| && u != t ==> NodesExist(s', s'.pcs[u]) && PcOk(s', s'.pcs[u])
  {
    forall u | 0 <= u < |s.pcs| && u != t ensures NodesExist(s', s'.pcs[u]) && PcOk(s', s'.pcs[u]) {
      var pc := s.pcs[u];
      assert NodesExist(s, pc) && PcOk(s, pc);
      assert NodeOk(s, m);
      if TendsNode(pc, m) {
        SumAtLeast(Tends(m), s.pcs, u);
        if TendsNode(s.pcs[t], m) {
          OneTender(s, m, t, u);
        }
      } else if HoldsRef(pc, m) {
        HolderKeepsNode(s, u);
      }
    }
  }

  /** No duty or reference except to m. */
  predicate About(pc: Pc, m: Node) {
    pc.Idle? || pc.GetLoad? || pc.GetRefs? || pc.GetCasRef? || pc.n == m
  }

  /** Memory and history outside node m are untouched, and the list and the log stay sound. */
  ghost predicate Framed(s: State, s': State, m: Node) {
    && |s'.refs| == |s'.stage| == |s'.next| == |s.refs| == |s.stage| == |s.next|
    && m < |s.refs|
    && (forall n :: 0 <= n < |s.refs| && n != m ==>
          s'.refs[n] == s.refs[n] && s'.stage[n] == s.stage[n] && s'.next[n] == s.next[n])
    && (forall n: Node :: n != m ==> (n in s'.list <==> n in s.list))
    && (s'.log == s.log || (s'.log != [] && s'.log[..|s'.log| - 1] == s.log && s'.log[|s.log|].n == m))
    && Chain(s'.head, s'.next, s'.list)
    && NoDuplicates(s'.list)
    && Disciplined(s'.log)
  }

  /** A step of t about node m leaves every other node as it was. */
  lemma OtherNodeOk(s: State, s': State, t: nat, m: Node, pc: Pc, n: Node)
    requires Inv(s) && t < |s.pcs| && s'.pcs == s.pcs[t := pc]
    requires Framed(s, s', m) && n < |s.refs| && n != m
    requires About(s.pcs[t], m) && About(pc, m)
    ensures NodeOk(s', n)
  {
    assert Temp(s', n) == Temp(s, n) && Tenders(s', n) == Tenders(s, n) by {
      CountsMove(s.pcs, t, pc, n);
    }
    assert HeldByClient(s'.log, n) == HeldByClient(s.log, n);
    assert n in s'.list <==> n in s.list;
    assert NodeOk(s, n);
  }

  /** A step of t about m keeps the invariant if node m and thread t are fine afterwards. */
  lemma FramedStep(s: State, s': State, t: nat, m: Node, pc: Pc)
    requires Inv(s) && t < |s.pcs| && s'.pcs == s.pcs[t := pc]
    requires Framed(s, s', m)
    requires About(s.pcs[t], m) && About(pc, m)
    requires s'.stage[m] == s.stage[m] || TendsNode(s.pcs[t], m) || !Tended(s.stage[m])
    requires s'.next[m] == s.next[m] || (s.stage[m].Claimed? && TendsNode(s.pcs[t], m))
    requires PtrOk(s', s'.head) && PtrOk(s', s'.next[m])
    requires NodesExist(s', pc) && PcOk(s', pc)
    requires NodeOk(s', m)
    ensures Inv(s')
  {
    forall n | 0 <= n < |s.refs| && n != m ensures NodeOk(s', n) {
      OtherNodeOk(s, s', t, m, pc, n);
    }
    OthersOk(s, s', t, m);
  }

  lemma CallAddKeepsInv(s: State, t: nat, n: Node)
    requires Inv(s) && Enabled(s, CallAdd(t, n))
    ensures Inv(Next(s, CallAdd(t, n)))
  {
    var s' := Next(s, CallAdd(t, n));
    assert NodeOk(s, n);
    CountsMove(s.pcs, t, AddFetch(n), n);
    LogGrows(s.log, Added(n), n);
    DisciplineGrows(s.log, Added(n));
    FramedStep(s, s', t, n, AddFetch(n));
  }

  /** A step that only moves a thread between program counters with the same references and duties. */
  lemma NeutralStep(s: State, t: nat, pc: Pc)
    requires Inv(s) && t < |s.pcs|
    requires NodesExist(s, pc) && PcOk(s, pc)
    requires forall n :: HoldsRef(s.pcs[t], n) == HoldsRef(pc, n) && TendsNode(s.pcs[t], n) == TendsNode(pc, n)
    ensures Inv(Go(s, t, pc))
  {
    var s' := Go(s, t, pc);
    forall n | 0 <= n < |s.refs| ensures NodeOk(s', n) {
      assert NodeOk(s, n);
      CountsMove(s.pcs, t, pc, n);
    }
    forall u | 0 <= u < |s.pcs| ensures NodesExist(s', s'.pcs[u]) && PcOk(s', s'.pcs[u]) {
      assert NodesExist(s, s.pcs[u]) && PcOk(s, s.pcs[u]);
    }
  }

  lemma AddFetchNode(s: State, t: nat, n: Node)
    requires Inv(s) && t < |s.pcs| && s.pcs[t] == AddFetch(n)
    ensures NodeOk(AddFetchStep(s, t, n), n)
  {
    var s' := AddFetchStep(s, t, n);
    assert s.stage[n].Adding? && s.refs[n] == Temp(s, n) <= MAX_THREADS && Tenders(s, n) == 1
           && n !in s.list && !HeldByClient(s.log, n) by {
      assert NodeOk(s, n);
      assert PcOk(s, s.pcs[t]);
      TempBound(s, n);
    }
    assert Temp(s', n) == Temp(s, n) && Tenders(s', n) == (if s.refs[n] == 0 then 1 else 0) by {
      CountsMove(s.pcs, t, s'.pcs[t], n);
    }
  }

  lemma AddFetchKeepsInv(s: State, t: nat, n: Node)
    requires Inv(s) && t < |s.pcs| && s.pcs[t] == AddFetch(n)
    ensures Inv(AddFetchStep(s, t, n))
  {
    var s' := AddFetchStep(s, t, n);
    AddFetchNode(s, t, n);
    FramedStep(s, s', t, n, s'.pcs[t]);
  }

  lemma PushNextKeepsInv(s: State, t: nat, n: Node, h: Ptr, ret: Return)
    requires Inv(s) && t < |s.pcs| && s.pcs[t] == PushNext(n, h, ret)
    ensures Inv(PushNextStep(s, t, n, h, ret))
  {
    var s' := PushNextStep(s, t, n, h, ret);
    assert NodeOk(s, n) && PcOk(s, s.pcs[t]);
    CountsMove(s.pcs, t, s'.pcs[t], n);
    ChainFrame(s.head, s.next, s.list, n, h);
    FramedStep(s, s', t, n, s'.pcs[t]);
  }

  lemma PushRefsNode(s: State, t: nat, n: Node, h: Ptr, ret: Return)
    requires Inv(s) && t < |s.pcs| && s.pcs[t] == PushRefs(n, h, ret)
    ensures NodeOk(PushRefsStep(s, t, n, h, ret), n)
  {
    var s' := PushRefsStep(s, t, n, h, ret);
    assert s.stage[n].Claimed? && Temp(s, n) == 0 && Tenders(s, n) == 1 && n !in s.list && !HeldByClient(s.log, n) by {
      assert NodeOk(s, n);
      assert PcOk(s, s.pcs[t]);
      TempBound(s, n);
    }
    assert Temp(s', n) == 0 && Tenders(s', n) == 1 by {
      CountsMove(s.pcs, t, s'.pcs[t], n);
    }
  }

  lemma PushRefsKeepsInv(s: State, t: nat, n: Node, h: Ptr, ret: Return)
    requires Inv(s) && t < |s.pcs| && s.pcs[t] == PushRefs(n, h, ret)
    ensures Inv(PushRefsStep(s, t, n, h, ret))
  {
    var s' := PushRefsStep(s, t, n, h, ret);
    PushRefsNode(s, t, n, h, ret);
    assert PcOk(s, s.pcs[t]);
    FramedStep(s, s', t, n, s'.pcs[t]);
  }

  lemma PushCasNode(s: State, t: nat, n: Node, h: Ptr, ret: Return)
    requires Inv(s) && t < |s.pcs| && s.pcs[t] == PushCas(n, h, ret) && s.head == h
    ensures NodeOk(PushCasStep(s, t, n, h, ret), n)
  {
    var s' := PushCasStep(s, t, n, h, ret);
    assert s.stage[n].Raised? && s.refs[n] == Temp(s, n) + 1 && Tenders(s, n) == 1 && n !in s.list && !HeldByClient(s.log, n) by {
      assert NodeOk(s, n);
      assert PcOk(s, s.pcs[t]);
      TempBound(s, n);
    }
    assert Temp(s', n) == Temp(s, n) && Tenders(s', n) == 0 by {
      CountsMove(s.pcs, t, s'.pcs[t], n);
    }
  }

  lemma PushCasList(s: State, t: nat, n: Node, h: Ptr, ret: Return)
    requires Inv(s) && t < |s.pcs| && s.pcs[t] == PushCas(n, h, ret) && s.head == h
    ensures Framed(s, PushCasStep(s, t, n, h, ret), n)
  {
    assert s.next[n] == h && n !in s.list by {
      assert NodeOk(s, n);
      assert PcOk(s, s.pcs[t]);
    }
    assert PushCasStep(s, t, n, h, ret).list[1..] == s.list;
  }

  lemma PushCasSucceeds(s: State, t: nat, n: Node, h: Ptr, ret: Return)
    requires Inv(s) && t < |s.pcs| && s.pcs[t] == PushCas(n, h, ret) && s.head == h
    ensures Inv(PushCasStep(s, t, n, h, ret))
  {
    PushCasNode(s, t, n, h, ret);
    PushCasList(s, t, n, h, ret);
    FramedStep(s, PushCasStep(s, t, n, h, ret), t, n, Resume(ret));
  }

  lemma PushCasFails(s: State, t: nat, n: Node, h: Ptr, ret: Return)
    requires Inv(s) && t < |s.pcs| && s.pcs[t] == PushCas(n, h, ret) && s.head != h
    ensures Inv(PushCasStep(s, t, n, h, ret))
  {
    assert PcOk(s, s.pcs[t]);
    NeutralStep(s, t, PushRevert(n, s.head, ret));
  }

  lemma PushRevertNode(s: State, t: nat, n: Node, h: Ptr, ret: Return)
    requires Inv(s) && t < |s.pcs| && s.pcs[t] == PushRevert(n, h, ret)
    ensures NodeOk(PushRevertStep(s, t, n, h, ret), n)
  {
    var s' := PushRevertStep(s, t, n, h, ret);
    assert s.stage[n].Raised? && s.refs[n] == Temp(s, n) + 1 <= MAX_THREADS + 1 && Tenders(s, n) == 1
           && n !in s.list && !HeldByClient(s.log, n) by {
      assert NodeOk(s, n);
      assert PcOk(s, s.pcs[t]);
      TempBound(s, n);
    }
    assert Temp(s', n) == Temp(s, n) && Tenders(s', n) == (if s.refs[n] == 1 then 1 else 0) by {
      CountsMove(s.pcs, t, s'.pcs[t], n);
    }
  }

  lemma PushRevertKeepsInv(s: State, t: nat, n: Node, h: Ptr, ret: Return)
    requires Inv(s) && t < |s.pcs| && s.pcs[t] == PushRevert(n, h, ret)
    ensures Inv(PushRevertStep(s, t, n, h, ret))
  {
    var s' := PushRevertStep(s, t, n, h, ret);
    PushRevertNode(s, t, n, h, ret);
    FramedStep(s, s', t, n, s'.pcs[t]);
  }

  lemma GetCasRefNode(s: State, t: nat, n: Node, word: Word32)
    requires Inv(s) && t < |s.pcs| && s.pcs[t] == GetCasRef(n, word) && s.refs[n] == word
    ensures NodeOk(GetCasRefStep(s, t, n, word), n)
  {
    var s' := GetCasRefStep(s, t, n, word);
    assert NodeOk(s, n) && Temp(s, n) < MAX_THREADS && Count(word) != 0 by {
      assert PcOk(s, s.pcs[t]);
      TempBound(s', n);
      CountsMove(s.pcs, t, GetNext(n), n);
    }
    assert Temp(s', n) == Temp(s, n) + 1 && Tenders(s', n) == Tenders(s, n) by {
      CountsMove(s.pcs, t, GetNext(n), n);
    }
  }

  lemma GetCasRefKeepsInv(s: State, t: nat, n: Node, word: Word32)
    requires Inv(s) && t < |s.pcs| && s.pcs[t] == GetCasRef(n, word)
    ensures Inv(GetCasRefStep(s, t, n, word))
  {
    if s.refs[n] == word {
      GetCasRefNode(s, t, n, word);
      FramedStep(s, GetCasRefStep(s, t, n, word), t, n, GetNext(n));
    } else {
      NeutralStep(s, t, GetLoad);
    }
  }

  lemma GetCasHeadNode(s: State, t: nat, n: Node, nx: Ptr)
    requires Inv(s) && t < |s.pcs| && s.pcs[t] == GetCasHead(n, nx) && s.head == At(n)
    ensures NodeOk(GetCasHeadStep(s, t, n, nx), n)
  {
    var s' := GetCasHeadStep(s, t, n, nx);
    assert s.stage[n].Listed? && s.refs[n] == Temp(s, n) + 1 && Tenders(s, n) == 0 && !HeldByClient(s.log, n) by {
      assert NodeOk(s, n);
      assert PcOk(s, s.pcs[t]);
      TempBound(s, n);
      assert s.list != [] && s.list[0] == n;
    }
    assert Temp(s', n) == Temp(s, n) && Tenders(s', n) == 1 by {
      CountsMove(s.pcs, t, s'.pcs[t], n);
    }
    assert n !in s'.list;
  }

  lemma GetCasHeadList(s: State, t: nat, n: Node, nx: Ptr)
    requires Inv(s) && t < |s.pcs| && s.pcs[t] == GetCasHead(n, nx) && s.head == At(n)
    ensures Framed(s, GetCasHeadStep(s, t, n, nx), n)
    ensures s.stage[n].Listed?
  {
    assert s.next[n] == nx by {
      assert PcOk(s, s.pcs[t]);
    }
    assert s.list != [] && s.list[0] == n;
    assert NodeOk(s, n);
  }

  lemma GetCasHeadKeepsInv(s: State, t: nat, n: Node, nx: Ptr)
    requires Inv(s) && t < |s.pcs| && s.pcs[t] == GetCasHead(n, nx)
    ensures Inv(GetCasHeadStep(s, t, n, nx))
  {
    if s.head == At(n) {
      GetCasHeadNode(s, t, n, nx);
      GetCasHeadList(s, t, n, nx);
      FramedStep(s, GetCasHeadStep(s, t, n, nx), t, n, GetSub2(n));
    } else {
      NeutralStep(s, t, GetSub1(n, s.head));
    }
  }

  lemma GetSub2Node(s: State, t: nat, n: Node)
    requires Inv(s) && t < |s.pcs| && s.pcs[t] == GetSub2(n)
    ensures NodeOk(GetSub2Step(s, t, n), n)
  {
    var s' := GetSub2Step(s, t, n);
    assert s.stage[n].Popped? && s.refs[n] == Temp(s, n) + 1 && Temp(s, n) > 0 && Tenders(s, n) == 1
           && n !in s.list && !HeldByClient(s.log, n) by {
      assert NodeOk(s, n);
      assert PcOk(s, s.pcs[t]);
      TempBound(s, n);
      HolderKeepsNode(s, t);
    }
    assert Temp(s', n) == Temp(s, n) - 1 && Tenders(s', n) == 0 by {
      CountsMove(s.pcs, t, s'.pcs[t], n);
    }
    LogGrows(s.log, Got(n), n);
  }

  lemma GetSub2KeepsInv(s: State, t: nat, n: Node)
    requires Inv(s) && t < |s.pcs| && s.pcs[t] == GetSub2(n)
    ensures Inv(GetSub2Step(s, t, n))
  {
    GetSub2Node(s, t, n);
    assert !HeldByClient(s.log, n) by {
      assert NodeOk(s, n);
      assert PcOk(s, s.pcs[t]);
    }
    DisciplineGrows(s.log, Got(n));
    FramedStep(s, GetSub2Step(s, t, n), t, n, Idle);
  }

  /** The last reference to a node in limbo is dropped: the dropper becomes its pusher. */
  lemma GetSub1LastNode(s: State, t: nat, n: Node, h: Ptr)
    requires Inv(s) && t < |s.pcs| && s.pcs[t] == GetSub1(n, h) && s.refs[n] == SHOULD_BE_ON_FREELIST + 1
    ensures s.stage[n].Limbo?
    ensures NodeOk(GetSub1Step(s, t, n, h), n)
  {
    var s' := GetSub1Step(s, t, n, h);
    assert s.stage[n].Limbo? && Temp(s, n) == 1 && Tenders(s, n) == 0 && n !in s.list && !HeldByClient(s.log, n) by {
      assert NodeOk(s, n);
      HolderKeepsNode(s, t);
      TempBound(s, n);
    }
    assert Temp(s', n) == 0 && Tenders(s', n) == 1 by {
      CountsMove(s.pcs, t, PushLoad(n, ToGetLoop(h)), n);
    }
  }

  lemma GetSub1OtherNode(s: State, t: nat, n: Node, h: Ptr)
    requires Inv(s) && t < |s.pcs| && s.pcs[t] == GetSub1(n, h) && s.refs[n] != SHOULD_BE_ON_FREELIST + 1
    ensures NodeOk(GetSub1Step(s, t, n, h), n)
  {
    var s' := GetSub1Step(s, t, n, h);
    assert s.refs[n] == Word(s.stage[n], Temp(s, n)) && Temp(s, n) > 0
           && (s.stage[n].Limbo? ==> Temp(s, n) > 1) && !s.stage[n].Claimed? by {
      assert NodeOk(s, n);
      HolderKeepsNode(s, t);
    }
    assert Temp(s, n) <= MAX_THREADS by {
      TempBound(s, n);
    }
    assert s'.refs[n] == s.refs[n] - 1;
    assert Temp(s', n) == Temp(s, n) - 1 && Tenders(s', n) == Tenders(s, n) by {
      CountsMove(s.pcs, t, LoopPc(h), n);
    }
    assert NodeOk(s, n);
  }

  lemma GetSub1KeepsInv(s: State, t: nat, n: Node, h: Ptr)
    requires Inv(s) && t < |s.pcs| && s.pcs[t] == GetSub1(n, h)
    ensures Inv(GetSub1Step(s, t, n, h))
  {
    var s' := GetSub1Step(s, t, n, h);
    if s.refs[n] == SHOULD_BE_ON_FREELIST + 1 {
      GetSub1LastNode(s, t, n, h);
    } else {
      GetSub1OtherNode(s, t, n, h);
    }
    FramedStep(s, s', t, n, s'.pcs[t]);
  }

  // ---------- every run ----------

  lemma StepKeepsInv(s: State, t: nat)
    requires Inv(s) && t < |s.pcs| && !s.pcs[t].Idle?
    ensures Inv(StepOf(s, t))
  {
    assert NodesExist(s, s.pcs[t]) && PcOk(s, s.pcs[t]);
    match s.pcs[t] {
      case AddFetch(n) => AddFetchKeepsInv(s, t, n);
      case PushLoad(n, ret) => NeutralStep(s, t, PushNext(n, s.head, ret));
      case PushNext(n, h, ret) => PushNextKeepsInv(s, t, n, h, ret);
      case PushRefs(n, h, ret) => PushRefsKeepsInv(s, t, n, h, ret);
      case PushCas(n, h, ret) =>
        if s.head == h {
          PushCasSucceeds(s, t, n, h, ret);
        } else {
          PushCasFails(s, t, n, h, ret);
        }
      case PushRevert(n, h, ret) => PushRevertKeepsInv(s, t, n, h, ret);
      case GetLoad => NeutralStep(s, t, LoopPc(s.head));
      case GetRefs(n) => NeutralStep(s, t, if Count(s.refs[n]) == 0 then GetLoad else GetCasRef(n, s.refs[n]));
      case GetCasRef(n, word) => GetCasRefKeepsInv(s, t, n, word);
      case GetNext(n) => NeutralStep(s, t, GetCasHead(n, s.next[n]));
      case GetCasHead(n, nx) => GetCasHeadKeepsInv(s, t, n, nx);
      case GetSub2(n) => GetSub2KeepsInv(s, t, n);
      case GetSub1(n, h) => GetSub1KeepsInv(s, t, n, h);
    }
  }

  lemma NextKeepsInv(s: State, a: Action)
    requires Inv(s) && Enabled(s, a)
    ensures Inv(Next(s, a))
  {
    match a {
      case CallAdd(t, n) => CallAddKeepsInv(s, t, n);
      case CallGet(t) => NeutralStep(s, t, GetLoad);
      case Step(t) => StepKeepsInv(s, t);
    }
  }

  /** A run: any threads, any interleaving. */
  ghost predicate IsRun(states: seq<State>, actions: seq<Action>) {
    && |states| == |actions| + 1
    && Init(states[0])
    && forall i :: 0 <= i < |actions| ==>
         Shape(states[i]) && Enabled(states[i], actions[i]) && states[i + 1] == Next(states[i], actions[i])
  }

  lemma {:induction false} RunsKeepInv(states: seq<State>, actions: seq<Action>, i: nat)
    requires IsRun(states, actions) && i < |states|
    ensures Inv(states[i])
  {
    if i == 0 {
      InitInv(states[0]);
    } else {
      RunsKeepInv(states, actions, i - 1);
      NextKeepsInv(states[i - 1], actions[i - 1]);
    }
  }

  // ---------- what the protocol promises ----------

  /** The low bits count the list's reference and the temporary ones; the top bit marks a pending add. */
  lemma WordsCountReferences(s: State, n: Node)
    requires Inv(s) && n < |s.refs|
    ensures Count(s.refs[n]) == Temp(s, n) + (if s.stage[n].Raised? || s.stage[n].Listed? || s.stage[n].Popped? then 1 else 0)
    ensures Flagged(s.refs[n]) <==> s.stage[n].Limbo? || s.stage[n].Claimed?
    ensures n in s.list ==> Count(s.refs[n]) >= 1 && !Flagged(s.refs[n])
  {
    assert NodeOk(s, n);
    TempBound(s, n);
  }

  /** While any thread holds a reference to n, no step of any thread stores to n's next pointer. */
  lemma NextIsFrozen(s: State, a: Action, n: Node)
    requires Inv(s) && Enabled(s, a) && n < |s.refs|
    requires Temp(s, n) > 0
    ensures Next(s, a).next[n] == s.next[n]
  {
    if a.Step? && s.pcs[a.t].PushNext? {
      assert PcOk(s, s.pcs[a.t]);
      assert NodeOk(s, s.pcs[a.t].n);
    }
  }

  /** A node just taken off the list does not have its bit set: the assertion in `try_get`. */
  lemma TakenNodeIsNotFlagged(s: State, t: nat)
    requires Inv(s) && t < |s.pcs| && s.pcs[t].GetSub2?
    ensures !Flagged(s.refs[s.pcs[t].n])
  {
    assert PcOk(s, s.pcs[t]);
    WordsCountReferences(s, s.pcs[t].n);
  }

  /** Between two returns of a node, some thread added it. */
  lemma ReturnedAgainOnlyAfterAdd(log: seq<Event>, n: Node, i: nat, j: nat) returns (k: nat)
    requires Disciplined(log)
    requires i < j < |log| && log[i] == Got(n) && log[j] == Got(n)
    ensures i < k < j && log[k] == Added(n)
  {
    assert !HeldByClient(log[..j], n);
    k := LastAdd(log[..j], n);
    assert log[..j][i] == Got(n);
  }

  /** If the last event about n is not its return to a client, it is an add. */
  lemma {:induction false} LastAdd(log: seq<Event>, n: Node) returns (k: nat)
    requires !HeldByClient(log, n)
    ensures k < |log| && log[k] == Added(n)
    ensures forall m :: k < m < |log| ==> log[m].n != n
  {
    if log[|log| - 1].n == n {
      k := |log| - 1;
    } else {
      k := LastAdd(log[..|log| - 1], n);
    }
  }

  /** In every run, no node goes to two clients without an add in between, and none before its first add. */
  lemma NoDoubleOwnership(states: seq<State>, actions: seq<Action>, n: Node, j: nat)
    requires IsRun(states, actions)
    requires var log := states[|actions|].log; j < |log| && log[j] == Got(n)
    ensures exists k :: 0 <= k < j && states[|actions|].log[k] == Added(n)
                        && forall m :: k < m < j ==> states[|actions|].log[m] != Got(n)
  {
    RunsKeepInv(states, actions, |actions|);
    var log := states[|actions|].log;
    assert !HeldByClient(log[..j], n);
    var k := LastAdd(log[..j], n);
    assert forall m :: k < m < j ==> log[m] == log[..j][m];
  }

  /** The node k links after p. */
  function Follow(p: Ptr, next: seq<Ptr>, k: nat): Ptr
    decreases k
  {
    if k == 0 || p.Null? || p.node >= |next| then p else Follow(next[p.node], next, k - 1)
  }

  lemma {:induction false} ChainReaches(p: Ptr, next: seq<Ptr>, list: seq<Node>, k: nat)
    requires Chain(p, next, list) && k <= |list|
    ensures Follow(p, next, k) == if k < |list| then At(list[k]) else Null
    decreases k
  {
    if k > 0 {
      ChainReaches(next[list[0]], next, list[1..], k - 1);
    }
  }

  /** The list is finite, has no node twice, and is what one sees by following the links from the head. */
  lemma ListIsAcyclic(s: State)
    requires Inv(s)
    ensures Follow(s.head, s.next, |s.list|) == Null
    ensures forall i, j :: 0 <= i < j < |s.list| ==> Follow(s.head, s.next, i) != Follow(s.head, s.next, j)
    ensures forall i :: 0 <= i < |s.list| ==> Follow(s.head, s.next, i) == At(s.list[i])
  {
    forall i | 0 <= i <= |s.list|
      ensures Follow(s.head, s.next, i) == if i < |s.list| then At(s.list[i]) else Null
    {
      ChainReaches(s.head, s.next, s.list, i);
    }
  }

  /** With no call in progress, a node is reachable from the head exactly when it was added and not taken since. */
  lemma NothingIsLost(s: State, n: Node)
    requires Inv(s) && n < |s.refs|
    requires forall t :: 0 <= t < |s.pcs| ==> s.pcs[t] == Idle
    ensures !HeldByClient(s.log, n) <==> exists k :: 0 <= k < |s.list| && Follow(s.head, s.next, k) == At(n)
    ensures s.refs[n] == if HeldByClient(s.log, n) then 0 else 1
  {
    assert NodeOk(s, n);
    SumZero(Holds(n), s.pcs);
    SumZero(Tends(n), s.pcs);
    ListIsAcyclic(s);
    forall k | 0 <= k < |s.list| && Follow(s.head, s.next, k) == At(n) ensures n in s.list {
      assert s.list[k] == n;
    }
    if n in s.list {
      var k :| 0 <= k < |s.list| && s.list[k] == n;
      assert Follow(s.head, s.next, k) == At(n);
    }
    assert s.stage[n].Listed? || s.stage[n].Out?;
    assert !HeldByClient(s.log, n) <==> n in s.list;
    assert n in s.list ==> exists k :: 0 <= k < |s.list| && Follow(s.head, s.next, k) == At(n);
    assert (exists k :: 0 <= k < |s.list| && Follow(s.head, s.next, k) == At(n)) ==> n in s.list;
  }

  /** A pending add always has a thread that will finish it: its only pusher, or a holder of a reference. */
  lemma PendingAddHasAThread(s: State, n: Node) returns (t: nat)
    requires Inv(s) && n < |s.refs| && Flagged(s.refs[n])
    ensures t < |s.pcs|
    ensures Count(s.refs[n]) == 0 ==> Duty(s.pcs[t]) == Some(Claimed) && s.pcs[t].n == n
                                      && forall u :: 0 <= u < |s.pcs| && u != t ==> !TendsNode(s.pcs[u], n)
    ensures Count(s.refs[n]) > 0 ==> HoldsRef(s.pcs[t], n) && !s.pcs[t].GetSub2?
                                     && forall u :: 0 <= u < |s.pcs| ==> !TendsNode(s.pcs[u], n)
  {
    assert NodeOk(s, n);
    WordsCountReferences(s, n);
    if Count(s.refs[n]) == 0 {
      t := SumWitness(Tends(n), s.pcs);
      assert PcOk(s, s.pcs[t]);
      forall u | 0 <= u < |s.pcs| && u != t ensures !TendsNode(s.pcs[u], n) {
        OneTender(s, n, t, u);
      }
    } else {
      t := SumWitness(Holds(n), s.pcs);
      forall u | 0 <= u < |s.pcs| ensures !TendsNode(s.pcs[u], n) {
        SumAtLeast(Tends(n), s.pcs, u);
      }
    }
  }

  /** A holder of a pending node fails to pop it, and whoever drops the last reference becomes its pusher. */
  lemma LastHolderPushes(s: State, t: nat, n: Node)
    requires Inv(s) && t < |s.pcs| && n < |s.refs| && Flagged(s.refs[n]) && HoldsRef(s.pcs[t], n)
    ensures s.pcs[t].GetCasHead? ==> StepOf(s, t).pcs[t] == GetSub1(n, s.head)
    ensures s.pcs[t].GetSub1? ==> (Count(s.refs[n]) == 1 <==> StepOf(s, t).pcs[t].PushLoad?)
    ensures s.pcs[t].GetSub1? ==> StepOf(s, t).stage[n] == if Count(s.refs[n]) == 1 then Claimed else Limbo
  {
    WordsCountReferences(s, n);
    assert NodeOk(s, n);
    HolderKeepsNode(s, t);
    assert s.list != [] ==> s.list[0] in s.list;
  }

  // ---------- a thread running alone ----------

  ghost function LoopRank(s: State, h: Ptr): nat {
    if h.Null? then 0 else if s.head == h then 5 else 10
  }

  ghost function ReturnRank(ret: Return): nat {
    if ret.ToCaller? then 0 else 10
  }

  /** t's reference is the last one to a node whose add is pending. */
  ghost predicate WillPush(s: State, n: Node) {
    n < |s.stage| && s.stage[n].Limbo? && Temp(s, n) == 1
  }

  /** A bound on the steps a thread still takes if no other thread steps. */
  ghost function Rank(s: State, t: nat): nat
    requires Shape(s) && t < |s.pcs|
  {
    match s.pcs[t]
    case Idle => 0
    case AddFetch(_) => 5
    case PushLoad(_, ret) => 4 + ReturnRank(ret)
    case PushNext(_, h, ret) => (if s.head == h then 3 else 7) + ReturnRank(ret)
    case PushRefs(_, h, ret) => (if s.head == h then 2 else 6) + ReturnRank(ret)
    case PushCas(_, h, ret) => (if s.head == h then 1 else 5) + ReturnRank(ret)
    case PushRevert(_, h, ret) => (if s.head == h then 4 else 8) + ReturnRank(ret)
    case GetLoad => 6
    case GetRefs(n) => LoopRank(s, At(n))
    case GetCasRef(n, word) => if s.refs[n] != word then 7 else if s.head == At(n) then 4 else 9
    case GetNext(n) => if s.head == At(n) then 3 else if WillPush(s, n) then 17 else 8
    case GetCasHead(n, _) => if s.head == At(n) then 2 else if WillPush(s, n) then 16 else 7
    case GetSub2(_) => 1
    case GetSub1(n, h) => if WillPush(s, n) then 15 else 1 + LoopRank(s, h)
  }

  const SOLO_STEPS: nat := 18

  lemma PushRankDecreases(s: State, t: nat)
    requires Inv(s) && t < |s.pcs| && Duty(s.pcs[t]).Some?
    ensures Shape(StepOf(s, t)) && Rank(StepOf(s, t), t) < Rank(s, t) <= SOLO_STEPS
  {
    StepKeepsInv(s, t);
  }

  lemma GetRefsRankDecreases(s: State, t: nat, n: Node)
    requires Inv(s) && t < |s.pcs| && s.pcs[t] == GetRefs(n)
    ensures Shape(StepOf(s, t)) && Rank(StepOf(s, t), t) < Rank(s, t) <= SOLO_STEPS
  {
    StepKeepsInv(s, t);
    if s.head == At(n) {
      assert n in s.list;
      WordsCountReferences(s, n);
    }
  }

  lemma GetCasRefRankDecreases(s: State, t: nat, n: Node, word: Word32)
    requires Inv(s) && t < |s.pcs| && s.pcs[t] == GetCasRef(n, word)
    ensures Shape(StepOf(s, t)) && Rank(StepOf(s, t), t) < Rank(s, t) <= SOLO_STEPS
  {
    StepKeepsInv(s, t);
    assert Temp(s, n) > 0 && s.stage[n].Limbo? ==> Temp(GetCasRefStep(s, t, n, word), n) != 1 || s.refs[n] != word by {
      CountsMove(s.pcs, t, GetNext(n), n);
    }
    assert NodeOk(s, n);
  }

  lemma GetLinksRankDecreases(s: State, t: nat)
    requires Inv(s) && t < |s.pcs| && (s.pcs[t].GetNext? || s.pcs[t].GetCasHead?)
    ensures Shape(StepOf(s, t)) && Rank(StepOf(s, t), t) < Rank(s, t) <= SOLO_STEPS
  {
    var n := s.pcs[t].n;
    StepKeepsInv(s, t);
    assert s.head != At(n) ==> WillPush(StepOf(s, t), n) == WillPush(s, n) by {
      CountsMove(s.pcs, t, StepOf(s, t).pcs[t], n);
    }
  }

  lemma GetSub1RankDecreases(s: State, t: nat, n: Node, h: Ptr)
    requires Inv(s) && t < |s.pcs| && s.pcs[t] == GetSub1(n, h)
    ensures Shape(StepOf(s, t)) && Rank(StepOf(s, t), t) < Rank(s, t) <= SOLO_STEPS
  {
    StepKeepsInv(s, t);
    assert WillPush(s, n) <==> s.refs[n] == SHOULD_BE_ON_FREELIST + 1 by {
      assert NodeOk(s, n);
      HolderKeepsNode(s, t);
      TempBound(s, n);
    }
  }

  /** Obstruction freedom: a thread that runs alone gets nearer to the end of its call with every step. */
  lemma SoloRankDecreases(s: State, t: nat)
    requires Inv(s) && t < |s.pcs| && !s.pcs[t].Idle?
    ensures Shape(StepOf(s, t)) && Rank(StepOf(s, t), t) < Rank(s, t) <= SOLO_STEPS
  {
    match s.pcs[t] {
      case GetLoad => StepKeepsInv(s, t);
      case GetRefs(n) => GetRefsRankDecreases(s, t, n);
      case GetCasRef(n, word) => GetCasRefRankDecreases(s, t, n, word);
      case GetNext(_) => GetLinksRankDecreases(s, t);
      case GetCasHead(_, _) => GetLinksRankDecreases(s, t);
      case GetSub1(n, h) => GetSub1RankDecreases(s, t, n, h);
      case _ => PushRankDecreases(s, t);
    }
  }

  /** The state after t runs alone for up to k steps. */
  ghost function Solo(s: State, t: nat, k: nat): State
    requires Inv(s) && t < |s.pcs|
    decreases k
  {
    if k == 0 || s.pcs[t].Idle? then s
    else
      StepKeepsInv(s, t);
      Solo(StepOf(s, t), t, k - 1)
  }

  /** From any reachable state, whatever the others were doing, a call run alone ends within 18 steps. */
  lemma {:induction false} SoloCallEnds(s: State, t: nat, k: nat)
    requires Inv(s) && t < |s.pcs| && Rank(s, t) <= k
    ensures Inv(Solo(s, t, k)) && t < |Solo(s, t, k).pcs| && Solo(s, t, k).pcs[t] == Idle
    decreases k
  {
    if !s.pcs[t].Idle? {
      SoloRankDecreases(s, t);
      StepKeepsInv(s, t);
      SoloCallEnds(StepOf(s, t), t, k - 1);
    }
  }

  // ---------- what a call that runs alone does ----------

  lemma SoloMore(s: State, t: nat, k: nat)
    requires Inv(s) && t < |s.pcs| && !s.pcs[t].Idle?
    ensures Inv(StepOf(s, t)) && t < |StepOf(s, t).pcs| && Solo(s, t, k + 1) == Solo(StepOf(s, t), t, k)
  {
    StepKeepsInv(s, t);
  }

  lemma SoloOver(s: State, t: nat, k: nat)
    requires Inv(s) && t < |s.pcs| && (k == 0 || s.pcs[t].Idle?)
    ensures Solo(s, t, k) == s
  {
  }

  /** Storing t's place twice is storing it once. */
  lemma GoAgain(s: State, t: nat, pc: Pc, pc': Pc)
    requires t < |s.pcs|
    ensures Go(Go(s, t, pc), t, pc') == Go(s, t, pc') && Go(s, t, pc).pcs[t] == pc
  {
    assert s.pcs[t := pc][t := pc'] == s.pcs[t := pc'];
  }

  /** With a node on the list, the head is the first of it, and its word counts the list's reference. */
  lemma HeadIsListed(s: State)
    requires Inv(s)
    ensures s.head == Null <==> s.list == []
    ensures s.head.At? ==>
              var n := s.head.node;
              n < |s.refs| == |s.next| == |s.stage| && s.list[0] == n && 1 <= s.refs[n] < SHOULD_BE_ON_FREELIST
  {
    if s.list != [] {
      assert s.list[0] in s.list;
      WordsCountReferences(s, s.list[0]);
      assert NodeOk(s, s.list[0]);
      TempBound(s, s.list[0]);
    }
  }

  /** The places of a lone try_get that finds node n at the head. */
  ghost function GetPlace(s: State, n: Node, k: nat): Pc
    requires n < |s.refs| == |s.next|
  {
    if k == 0 then GetLoad else if k == 1 then GetRefs(n) else if k == 2 then GetCasRef(n, s.refs[n]) else if k == 3 then GetNext(n)
    else if k == 4 then GetCasHead(n, s.next[n]) else GetSub2(n)
  }

  /** And the memory, after k steps of it. */
  ghost function GetMemory(s: State, n: Node, k: nat): State
    requires n < |s.refs| == |s.next| == |s.stage| && s.refs[n] + 1 < WORD
  {
    var s1 := if k <= 2 then s else SetRefs(s, n, s.refs[n] + 1);
    if k <= 4 then s1 else SetStage(s1.(head := s.next[n], list := if s.list == [] then [] else s.list[1..]), n, Popped)
  }

  ghost function GetState(s: State, t: nat, n: Node, k: nat): State
    requires t < |s.pcs| && n < |s.refs| == |s.next| == |s.stage| && s.refs[n] + 1 < WORD
  {
    Go(GetMemory(s, n, k), t, GetPlace(s, n, k))
  }

  /** What a lone try_get that finds node n at the head leaves. */
  ghost function Taken(s: State, n: Node): State
    requires n < |s.refs| == |s.next| == |s.stage| && 1 <= s.refs[n]
  {
    s.(head := s.next[n], list := if s.list == [] then [] else s.list[1..], refs := s.refs[n := s.refs[n] - 1],
       stage := s.stage[n := Out], log := s.log + [Got(n)])
  }

  lemma GetAdvances(s: State, t: nat, n: Node, k: nat)
    requires Shape(s) && t < |s.pcs| && s.pcs[t].Idle? && s.head == At(n) && n < |s.refs| && 1 <= s.refs[n] < SHOULD_BE_ON_FREELIST
    requires k <= 5 && Shape(GetState(s, t, n, k))
    ensures |GetState(s, t, n, k).pcs| == |s.pcs| && !GetState(s, t, n, k).pcs[t].Idle?
    ensures StepOf(GetState(s, t, n, k), t) == if k < 5 then GetState(s, t, n, k + 1) else Taken(s, n)
  {
    var s1 := GetState(s, t, n, k);
    GoAgain(GetMemory(s, n, k), t, GetPlace(s, n, k), if k < 5 then GetPlace(s, n, k + 1) else Idle);
    assert s1.pcs[t] == GetPlace(s, n, k);
    assert k == 5 ==> Go(s, t, Idle) == s;
  }

  lemma ShapeOfInv(s: State)
    requires Inv(s)
    ensures Shape(s)
  {
  }

  lemma GetBegins(s: State, t: nat, n: Node)
    requires Shape(s) && t < |s.pcs| && s.pcs[t].Idle? && n < |s.refs| && 1 <= s.refs[n] < SHOULD_BE_ON_FREELIST
    ensures GetState(s, t, n, 0) == Next(s, CallGet(t)) && |GetState(s, t, n, 0).pcs| == |s.pcs|
  {
  }

  /** The states of a lone try_get that finds node n at the head. */
  lemma {:induction false} SoloGetStates(s: State, t: nat, n: Node, k: nat)
    requires Inv(s) && t < |s.pcs| && s.pcs[t].Idle? && s.head == At(n) && k <= 5
    ensures n < |s.refs| == |s.next| == |s.stage| && 1 <= s.refs[n] < SHOULD_BE_ON_FREELIST
    ensures Inv(GetState(s, t, n, k)) && GetState(s, t, n, 0) == Next(s, CallGet(t)) && Inv(GetState(s, t, n, 0))
    ensures Solo(GetState(s, t, n, 0), t, k) == GetState(s, t, n, k)
  {
    hide Inv, StepOf, Next, GetState, Solo;
    ShapeOfInv(s);
    HeadIsListed(s);
    NextKeepsInv(s, CallGet(t));
    GetBegins(s, t, n);
    if k == 0 {
      SoloOver(GetState(s, t, n, 0), t, 0);
    } else {
      SoloGetStates(s, t, n, k - 1);
      ShapeOfInv(GetState(s, t, n, k - 1));
      GetAdvances(s, t, n, k - 1);
      StepKeepsInv(GetState(s, t, n, k - 1), t);
      SoloOneMore(GetState(s, t, n, 0), t, k - 1);
    }
  }

  /** One more step at the end. */
  lemma {:induction false} SoloOneMore(s: State, t: nat, k: nat)
    requires Inv(s) && t < |s.pcs|
    ensures var s' := Solo(s, t, k);
            && Inv(s') && t < |s'.pcs| && Solo(s, t, k + 1) == (if s'.pcs[t].Idle? then s' else StepOf(s', t))
    decreases k
  {
    if !s.pcs[t].Idle? {
      StepKeepsInv(s, t);
      if k > 0 {
        SoloOneMore(StepOf(s, t), t, k - 1);
      } else {
        SoloOver(StepOf(s, t), t, 0);
      }
    }
  }

  /** From any reachable state, a try_get that runs alone takes the first node of the list; it fails exactly if there is none. */
  lemma SoloGet(s: State, t: nat)
    requires Inv(s) && t < |s.pcs| && s.pcs[t].Idle?
    ensures Inv(Next(s, CallGet(t)))
    ensures s.list == [] ==> Solo(Next(s, CallGet(t)), t, 6) == s
    ensures s.list != [] ==>
              && s.list[0] < |s.refs| == |s.next| == |s.stage| && 1 <= s.refs[s.list[0]]
              && Solo(Next(s, CallGet(t)), t, 6) == Taken(s, s.list[0])
  {
    HeadIsListed(s);
    NextKeepsInv(s, CallGet(t));
    var s0 := Next(s, CallGet(t));
    if s.list == [] {
      GoAgain(s, t, GetLoad, Idle);
      SoloMore(s0, t, 5);
      assert Go(s, t, Idle) == s;
      SoloOver(s, t, 5);
    } else {
      SoloGetStates(s, t, s.list[0], 5);
      GetAdvances(s, t, s.list[0], 5);
      SoloOneMore(s0, t, 5);
    }
  }
}
