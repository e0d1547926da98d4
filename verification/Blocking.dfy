/**
 BlockingConcurrentQueue: the semaphore and the sub-queues run together.

 A producer publishes elements in a sub-queue and then signals as many units; a
 consumer first acquires units from the semaphore (its permits) and then retries
 dequeues on the sub-queues until each permit has become an element. The semaphore
 and every sub-queue are the machines of modules Semaphore and Tickets, sharing the
 same threads; `ctl` says how many permits a thread still holds and in which
 sub-queue it is trying. Which sub-queue a consumer tries next is left open.
 */
module Blocking {
  import opened Sums
  import S = Semaphore
  import T = Tickets

  datatype Option<X> = None | Some(value: X)

  datatype Ctl = Ctl(permits: nat, sub: Option<nat>)

  datatype State = State(sem: S.State, subs: seq<T.State>, ctl: seq<Ctl>)

  datatype Action =
    | Enqueue(t: nat, i: nat, count: nat)     // publish, then call signal(count)
    | Wait(t: nat, call: S.Action)            // call tryWait(Many) or wait(Many)
    | SemStep(t: nat)
    | SemFail(t: nat)
    | Collect(t: nat)                         // the call on the semaphore returns
    | Attempt(t: nat, i: nat)                 // call dequeue(_bulk) of sub-queue i for all permits
    | SubStep(t: nat)

  const FREE := Ctl(0, None)

  ghost predicate Enabled(s: State, a: Action) {
    && a.t < |s.ctl| == |s.sem.pcs|
    && match a
       case Enqueue(t, i, _) => s.ctl[t] == FREE && s.sem.pcs[t].Idle? && i < |s.subs|
       case Wait(t, call) => s.ctl[t] == FREE && (call.TryWait? || call.Wait?) && call.t == t && S.Enabled(s.sem, call)
       case SemStep(t) => S.Enabled(s.sem, S.Step(t))
       case SemFail(t) => S.Enabled(s.sem, S.Fail(t))
       case Collect(t) => S.Enabled(s.sem, S.Returned(t))
       case Attempt(t, i) => s.ctl[t].permits > 0 && s.ctl[t].sub.None? && i < |s.subs|
       case SubStep(t) => s.ctl[t].sub.Some?
  }

  /** The indices a sub-queue step takes from the head: each uses up a permit. */
  function Used(pc: T.Pc): nat {
    if pc.FetchHead? then pc.actual else 0
  }

  /** The sub-queue an action concerns is in a state to take the step. The invariant guarantees it. */
  ghost predicate Ready(s: State, a: Action)
    requires Enabled(s, a)
  {
    && (forall i :: 0 <= i < |s.subs| ==> T.TicketsIssued(s.subs[i]))
    && (a.Attempt? ==> T.Enabled(s.subs[a.i], T.Dequeue(a.t, s.ctl[a.t].permits)))
    && (a.SubStep? ==>
          && s.ctl[a.t].sub.value < |s.subs|
          && T.Enabled(s.subs[s.ctl[a.t].sub.value], T.Step(a.t))
          && Used(s.subs[s.ctl[a.t].sub.value].pcs[a.t]) <= s.ctl[a.t].permits)
  }

  ghost function Next(s: State, a: Action): State
    requires Enabled(s, a) && Ready(s, a)
  {
    match a
    case Enqueue(t, i, count) =>
      s.(sem := S.Next(s.sem, S.Signal(t, count)), subs := s.subs[i := T.Next(s.subs[i], T.Enqueue(count))])
    case Wait(t, call) => s.(sem := S.Next(s.sem, call))
    case SemStep(t) => s.(sem := S.Next(s.sem, S.Step(t)))
    case SemFail(t) => s.(sem := S.Next(s.sem, S.Fail(t)))
    case Collect(t) =>
      s.(sem := S.Next(s.sem, S.Returned(t)), ctl := s.ctl[t := Ctl(s.sem.pcs[t].result, None)])
    case Attempt(t, i) =>
      s.(subs := s.subs[i := T.Next(s.subs[i], T.Dequeue(t, s.ctl[t].permits))],
         ctl := s.ctl[t := s.ctl[t].(sub := Some(i))])
    case SubStep(t) =>
      var i := s.ctl[t].sub.value;
      var sub := T.Next(s.subs[i], T.Step(t));
      s.(subs := s.subs[i := sub],
         ctl := s.ctl[t := Ctl(s.ctl[t].permits - Used(s.subs[i].pcs[t]),
                               if sub.pcs[t].Idle? then None else Some(i))])
  }

  // ---------- the invariant ----------

  ghost function Tail(): T.State -> nat {
    (sub: T.State) => sub.tail
  }

  ghost function Head(): T.State -> nat {
    (sub: T.State) => sub.head
  }

  ghost function Permits(): Ctl -> nat {
    (c: Ctl) => c.permits
  }

  /** Elements published by a producer that has not added them to the count yet. */
  ghost function Unsignalled(): S.Pc -> nat {
    (pc: S.Pc) => if pc.SignalAdd? then pc.count else 0
  }

  /** The most elements a dequeue under way can still take. */
  function Want(pc: T.Pc): nat {
    match pc
    case Idle => 0
    case LoadTail(max) => max
    case LoadOver(max, _) => max
    case LoadOpt(max, _, _) => max
    case FetchOpt(_, desired) => desired
    case ReloadTail(_, _, desired) => desired
    case AddOver(back, actual) => back + actual
    case FetchHead(actual) => actual
    case Reading(_, _) => 0
  }

  ghost predicate IdleExcept(s: State, t: nat, i: Option<nat>)
    requires forall j :: 0 <= j < |s.subs| ==> t < |s.subs[j].pcs|
  {
    forall j :: 0 <= j < |s.subs| && i != Some(j) ==> s.subs[j].pcs[t].Idle?
  }

  ghost predicate ThreadOk(s: State, t: nat)
    requires t < |s.ctl| == |s.sem.pcs|
    requires forall j :: 0 <= j < |s.subs| ==> t < |s.subs[j].pcs|
  {
    var c := s.ctl[t];
    && IdleExcept(s, t, c.sub)
    && (c != FREE ==> s.sem.pcs[t].Idle?)
    && (c.sub.Some? ==>
          && c.sub.value < |s.subs|
          && !s.subs[c.sub.value].pcs[t].Idle?
          && Want(s.subs[c.sub.value].pcs[t]) <= c.permits)
  }

  ghost predicate Inv(s: State) {
    && |s.ctl| == |s.sem.pcs|
    && (forall i :: 0 <= i < |s.subs| ==> T.Inv(s.subs[i]) && |s.subs[i].pcs| == |s.ctl|)
    && S.Inv(s.sem) && s.sem.initial == 0
    && Sum(Tail(), s.subs) == s.sem.signalled + Sum(Unsignalled(), s.sem.pcs)
    && Sum(Head(), s.subs) + Sum(Permits(), s.ctl) == s.sem.taken
    && (forall t :: 0 <= t < |s.ctl| ==> ThreadOk(s, t))
  }

  ghost predicate Init(s: State) {
    && S.Init(s.sem) && s.sem.initial == 0
    && |s.ctl| == |s.sem.pcs|
    && (forall t :: 0 <= t < |s.ctl| ==> s.ctl[t] == FREE)
    && (forall i :: 0 <= i < |s.subs| ==> T.Init(s.subs[i]) && |s.subs[i].pcs| == |s.ctl|)
  }

  lemma InitInv(s: State)
    requires Init(s)
    ensures Inv(s)
  {
    S.InitInv(s.sem);
    forall i | 0 <= i < |s.subs| ensures T.Inv(s.subs[i]) {
      T.InitInv(s.subs[i]);
    }
    SumZero(Tail(), s.subs);
    SumZero(Head(), s.subs);
    SumZero(Permits(), s.ctl);
    SumZero(Unsignalled(), s.sem.pcs);
  }

  /** A state of the invariant lets every enabled action happen. */
  lemma StepsExist(s: State, a: Action)
    requires Inv(s) && Enabled(s, a)
    ensures Ready(s, a)
  {
    forall i | 0 <= i < |s.subs| ensures T.TicketsIssued(s.subs[i]) {
      T.TicketsAreIssued(s.subs[i]);
    }
    assert ThreadOk(s, a.t);
  }

  lemma EnqueueKeepsInv(s: State, t: nat, i: nat, count: nat)
    requires Inv(s) && Enabled(s, Enqueue(t, i, count)) && Ready(s, Enqueue(t, i, count))
    ensures Inv(Next(s, Enqueue(t, i, count)))
  {
    var s' := Next(s, Enqueue(t, i, count));
    assert ThreadOk(s, t);
    T.NextKeepsInv(s.subs[i], T.Enqueue(count));
    S.NextKeepsInv(s.sem, S.Signal(t, count));
    SumUpdate(Tail(), s.subs, i, s'.subs[i]);
    SumUpdate(Head(), s.subs, i, s'.subs[i]);
    SumUpdate(Unsignalled(), s.sem.pcs, t, s'.sem.pcs[t]);
    forall u | 0 <= u < |s.ctl| ensures ThreadOk(s', u) {
      assert ThreadOk(s, u);
    }
  }

  /** A signaller's fetch_add moves its elements from unsignalled to signalled. */
  lemma SignalEffect(sem: S.State, t: nat)
    requires S.Inv(sem) && t < |sem.pcs| && sem.pcs[t].SignalAdd?
    ensures var sem' := S.StepOf(sem, t);
            && sem'.initial == sem.initial && sem'.taken == sem.taken
            && sem'.pcs == sem.pcs[t := sem'.pcs[t]]
            && sem'.signalled + Sum(Unsignalled(), sem'.pcs) == sem.signalled + Sum(Unsignalled(), sem.pcs)
  {
    SumUpdate(Unsignalled(), sem.pcs, t, S.StepOf(sem, t).pcs[t]);
  }

  /** Any other step inside a call of the semaphore signals nothing. */
  lemma QuietEffect(sem: S.State, call: S.Action)
    requires S.Inv(sem) && S.Enabled(sem, call) && !call.Signal? && !call.Returned?
    requires call.Step? ==> !sem.pcs[call.t].SignalAdd?
    ensures var sem' := S.Next(sem, call);
            && sem'.initial == sem.initial && sem'.taken == sem.taken && sem'.signalled == sem.signalled
            && sem'.pcs == sem.pcs[call.t := sem'.pcs[call.t]]
            && Unsignalled()(sem.pcs[call.t]) == Unsignalled()(sem'.pcs[call.t]) == 0
  {
  }

  /** What a step inside a call of the semaphore changes as seen from outside. */
  lemma SemaphoreEffect(sem: S.State, t: nat, call: S.Action)
    requires S.Inv(sem) && t == call.t && S.Enabled(sem, call) && !call.Signal? && !call.Returned?
    ensures var sem' := S.Next(sem, call);
            && sem'.initial == sem.initial && sem'.taken == sem.taken
            && sem'.pcs == sem.pcs[t := sem'.pcs[t]]
            && sem'.signalled + Sum(Unsignalled(), sem'.pcs) == sem.signalled + Sum(Unsignalled(), sem.pcs)
  {
    if call.Step? && sem.pcs[t].SignalAdd? {
      SignalEffect(sem, t);
    } else {
      QuietEffect(sem, call);
      SumUpdate(Unsignalled(), sem.pcs, t, S.Next(sem, call).pcs[t]);
    }
  }

  lemma SemaphoreKeepsInv(s: State, t: nat, call: S.Action)
    requires Inv(s) && t == call.t && S.Enabled(s.sem, call) && !call.Signal? && !call.Returned?
    requires s.ctl[t] == FREE
    ensures Inv(s.(sem := S.Next(s.sem, call)))
  {
    var s' := s.(sem := S.Next(s.sem, call));
    SemaphoreEffect(s.sem, t, call);
    S.NextKeepsInv(s.sem, call);
    forall u | 0 <= u < |s.ctl| ensures ThreadOk(s', u) {
      assert ThreadOk(s, u);
    }
  }

  lemma CollectKeepsInv(s: State, t: nat)
    requires Inv(s) && Enabled(s, Collect(t)) && Ready(s, Collect(t))
    ensures Inv(Next(s, Collect(t)))
  {
    var s' := Next(s, Collect(t));
    assert ThreadOk(s, t);
    S.NextKeepsInv(s.sem, S.Returned(t));
    SumUpdate(Unsignalled(), s.sem.pcs, t, S.Idle);
    SumUpdate(Permits(), s.ctl, t, s'.ctl[t]);
    forall u | 0 <= u < |s.ctl| ensures ThreadOk(s', u) {
      assert ThreadOk(s, u);
    }
  }

  /** A move of t in sub-queue i keeps the invariant if every index it takes costs it a permit. */
  lemma SubMove(s: State, s': State, t: nat, i: nat)
    requires Inv(s) && t < |s.ctl| && i < |s.subs|
    requires s'.sem == s.sem && |s'.subs| == |s.subs| && s'.subs == s.subs[i := s'.subs[i]]
    requires |s'.ctl| == |s.ctl| && s'.ctl == s.ctl[t := s'.ctl[t]]
    requires T.Inv(s'.subs[i]) && |s'.subs[i].pcs| == |s.ctl|
    requires s'.subs[i].pcs == s.subs[i].pcs[t := s'.subs[i].pcs[t]]
    requires s'.subs[i].tail == s.subs[i].tail
    requires s'.subs[i].head + s'.ctl[t].permits == s.subs[i].head + s.ctl[t].permits
    requires ThreadOk(s', t)
    ensures Inv(s')
  {
    SumUpdate(Tail(), s.subs, i, s'.subs[i]);
    SumUpdate(Head(), s.subs, i, s'.subs[i]);
    SumUpdate(Permits(), s.ctl, t, s'.ctl[t]);
    forall u | 0 <= u < |s.ctl| ensures ThreadOk(s', u) {
      assert ThreadOk(s, u);
    }
  }

  lemma AttemptKeepsInv(s: State, t: nat, i: nat)
    requires Inv(s) && Enabled(s, Attempt(t, i)) && Ready(s, Attempt(t, i))
    ensures Inv(Next(s, Attempt(t, i)))
  {
    assert ThreadOk(s, t);
    T.NextKeepsInv(s.subs[i], T.Dequeue(t, s.ctl[t].permits));
    SubMove(s, Next(s, Attempt(t, i)), t, i);
  }

  /** A dequeue's wants only shrink, and the indices it takes are paid for with its permits. */
  lemma WantShrinks(sub: T.State, t: nat)
    requires T.Inv(sub) && t < |sub.pcs| && !sub.pcs[t].Idle? && T.TicketsIssued(sub)
    ensures Want(T.StepOf(sub, t).pcs[t]) + Used(sub.pcs[t]) <= Want(sub.pcs[t])
    ensures T.StepOf(sub, t).head == sub.head + Used(sub.pcs[t])
    ensures T.StepOf(sub, t).tail == sub.tail
    ensures T.StepOf(sub, t).pcs == sub.pcs[t := T.StepOf(sub, t).pcs[t]]
  {
    assert T.PcOk(sub, t);
  }

  lemma SubStepKeepsInv(s: State, t: nat)
    requires Inv(s) && Enabled(s, SubStep(t)) && Ready(s, SubStep(t))
    ensures Inv(Next(s, SubStep(t)))
  {
    var i := s.ctl[t].sub.value;
    var s' := Next(s, SubStep(t));
    T.NextKeepsInv(s.subs[i], T.Step(t));
    WantShrinks(s.subs[i], t);
    assert ThreadOk(s', t) by {
      assert ThreadOk(s, t);
    }
    SubMove(s, s', t, i);
  }

  lemma NextKeepsInv(s: State, a: Action)
    requires Inv(s) && Enabled(s, a)
    ensures Ready(s, a) && Inv(Next(s, a))
  {
    StepsExist(s, a);
    assert ThreadOk(s, a.t);
    match a {
      case Enqueue(t, i, count) => EnqueueKeepsInv(s, t, i, count);
      case Wait(t, call) => SemaphoreKeepsInv(s, t, call);
      case SemStep(t) => SemaphoreKeepsInv(s, t, S.Step(t));
      case SemFail(t) => SemaphoreKeepsInv(s, t, S.Fail(t));
      case Collect(t) => CollectKeepsInv(s, t);
      case Attempt(t, i) => AttemptKeepsInv(s, t, i);
      case SubStep(t) => SubStepKeepsInv(s, t);
    }
  }

  ghost predicate IsRun(states: seq<State>, actions: seq<Action>) {
    && |states| == |actions| + 1
    && Init(states[0])
    && forall i :: 0 <= i < |actions| ==>
         Enabled(states[i], actions[i]) && Ready(states[i], actions[i]) && states[i + 1] == Next(states[i], actions[i])
  }

  lemma {:induction false} RunsKeepInv(states: seq<State>, actions: seq<Action>, i: nat)
    requires IsRun(states, actions) && i < |states|
    ensures Inv(states[i])
  {
    if i == 0 {
      InitInv(states[0]);
    } else {
      RunsKeepInv(states, actions, i - 1);
      NextKeepsInv(states[i - 1], actions[i - 1]);
    }
  }

  // ---------- a permit guarantees an element ----------

  /** Elements published and not taken. */
  ghost function Elements(s: State): int {
    Sum(Tail(), s.subs) - Sum(Head(), s.subs)
  }

  /** Every element has one permit: held by a consumer, on its way to one, in the count, or still to be signalled. */
  lemma ElementsArePermits(s: State)
    requires Inv(s)
    ensures Elements(s) == Sum(Permits(), s.ctl) + Sum(S.Held(), s.sem.pcs)
                           + S.Positive(s.sem.count) + s.sem.kernel + Sum(S.Unposted(), s.sem.pcs)
                           + Sum(Unsignalled(), s.sem.pcs)
  {
    S.GrantsAreBacked(s.sem);
  }

  /** The units a thread has under way in a sub-queue. */
  ghost function Units(): T.Pc -> nat {
    (pc: T.Pc) => if pc.ReloadTail? then pc.desired else if pc.AddOver? then pc.back + pc.actual
                  else if pc.FetchHead? then pc.actual else 0
  }

  ghost function SubUnits(): T.State -> nat {
    (sub: T.State) => Sum(Units(), sub.pcs)
  }

  /** The permits of threads that are trying in sub-queue i, and in one of the first n. */
  ghost function PermitsIn(i: nat): Ctl -> nat {
    (c: Ctl) => if c.sub == Some(i) then c.permits else 0
  }

  ghost function PermitsBelow(n: nat): Ctl -> nat {
    (c: Ctl) => if c.sub.Some? && c.sub.value < n then c.permits else 0
  }

  lemma UnitsOfSub(s: State, i: nat)
    requires Inv(s) && i < |s.subs|
    ensures Sum(Units(), s.subs[i].pcs) <= Sum(PermitsIn(i), s.ctl)
    ensures s.subs[i].opt - s.subs[i].over == s.subs[i].head + Sum(Units(), s.subs[i].pcs)
  {
    var sub := s.subs[i];
    forall t | 0 <= t < |s.ctl| ensures Units()(sub.pcs[t]) <= PermitsIn(i)(s.ctl[t]) {
      assert ThreadOk(s, t);
    }
    SumCompare(Units(), sub.pcs, PermitsIn(i), s.ctl);
    UnitsAdd(sub.pcs);
    T.OptimisticCountAccount(sub);
  }

  lemma {:induction false} UnitsAdd(pcs: seq<T.Pc>)
    ensures Sum(Units(), pcs) == Sum(T.Claimed(), pcs) + Sum(T.ToTake(), pcs) + Sum(T.ToReturn(), pcs)
  {
    if pcs != [] {
      UnitsAdd(pcs[..|pcs| - 1]);
    }
  }

  lemma {:induction false} UnitsOfSubs(s: State, n: nat)
    requires Inv(s) && n <= |s.subs|
    ensures Sum(SubUnits(), s.subs[..n]) <= Sum(PermitsBelow(n), s.ctl)
  {
    if n > 0 {
      UnitsOfSubs(s, n - 1);
      UnitsOfSub(s, n - 1);
      assert s.subs[..n][..n - 1] == s.subs[..n - 1];
      SumAdd(PermitsBelow(n - 1), PermitsIn(n - 1), PermitsBelow(n), s.ctl);
    }
  }

  function Surplus(sub: T.State): int {
    T.Available(sub.tail, sub.opt, sub.over)
  }

  ghost function TotalSurplus(subs: seq<T.State>): int {
    if subs == [] then 0 else TotalSurplus(subs[..|subs| - 1]) + Surplus(subs[|subs| - 1])
  }

  lemma {:induction false} SurplusAccount(s: State, n: nat)
    requires Inv(s) && n <= |s.subs|
    ensures TotalSurplus(s.subs[..n]) == Sum(Tail(), s.subs[..n]) - Sum(Head(), s.subs[..n]) - Sum(SubUnits(), s.subs[..n])
  {
    if n > 0 {
      SurplusAccount(s, n - 1);
      UnitsOfSub(s, n - 1);
      assert s.subs[..n][..n - 1] == s.subs[..n - 1];
    }
  }

  lemma {:induction false} PositiveSurplus(subs: seq<T.State>) returns (i: nat)
    requires TotalSurplus(subs) > 0
    ensures i < |subs| && Surplus(subs[i]) > 0
  {
    if Surplus(subs[|subs| - 1]) > 0 {
      i := |subs| - 1;
    } else {
      i := PositiveSurplus(subs[..|subs| - 1]);
    }
  }

  /**
   A consumer between two dequeue attempts: however the others' dequeues are parked, the
   sub-queues together still offer at least its permits, so some sub-queue offers an element.
   */
  lemma PermitGuaranteesElement(s: State, t: nat) returns (i: nat)
    requires Inv(s) && t < |s.ctl| && s.ctl[t].permits > 0 && s.ctl[t].sub.None?
    ensures TotalSurplus(s.subs) >= s.ctl[t].permits
    ensures i < |s.subs| && Surplus(s.subs[i]) > 0
  {
    assert s.subs[..|s.subs|] == s.subs;
    UnitsOfSubs(s, |s.subs|);
    SurplusAccount(s, |s.subs|);
    SumSlack(PermitsBelow(|s.subs|), Permits(), s.ctl, t);
    ElementsArePermits(s);
    i := PositiveSurplus(s.subs);
  }

  /** What sub-queue `sub` gives to a lone consumer that asks for `permits` elements. */
  function Offer(sub: T.State, permits: nat): nat {
    T.Min(permits, if Surplus(sub) > 0 then Surplus(sub) else 0)
  }

  /** What a consumer with `permits` gets from one pass over the sub-queues, alone: all each still offers it. */
  function Pass(subs: seq<T.State>, permits: nat): (n: nat)
    ensures n <= permits
  {
    if subs == [] then 0
    else
      var got := Offer(subs[0], permits);
      got + Pass(subs[1..], permits - got)
  }

  lemma {:induction false} PassTakesTheSurplus(subs: seq<T.State>, permits: nat)
    ensures Pass(subs, permits) == permits || Pass(subs, permits) >= TotalSurplus(subs)
    decreases |subs|
  {
    if subs != [] {
      var got := Offer(subs[0], permits);
      PassTakesTheSurplus(subs[1..], permits - got);
      SurplusFromTheFront(subs);
    }
  }

  lemma {:induction false} SurplusFromTheFront(subs: seq<T.State>)
    requires subs != []
    ensures TotalSurplus(subs) == Surplus(subs[0]) + TotalSurplus(subs[1..])
    decreases |subs|
  {
    if |subs| > 1 {
      SurplusFromTheFront(subs[..|subs| - 1]);
      assert subs[..|subs| - 1][1..] == subs[1..][..|subs| - 2];
    }
  }

  // ---------- the retry loop ----------

  /** Consecutive steps of the machine. */
  ghost predicate IsPath(states: seq<State>, actions: seq<Action>) {
    && |states| == |actions| + 1
    && forall i :: 0 <= i < |actions| ==>
         Enabled(states[i], actions[i]) && Ready(states[i], actions[i]) && states[i + 1] == Next(states[i], actions[i])
  }

  lemma PathsJoin(states: seq<State>, actions: seq<Action>, states': seq<State>, actions': seq<Action>)
    requires IsPath(states, actions) && IsPath(states', actions') && states[|actions|] == states'[0]
    ensures IsPath(states + states'[1..], actions + actions')
  {
    hide Enabled, Ready, Next;
    var all := states + states'[1..];
    forall i | |actions| <= i < |all| ensures all[i] == states'[i - |actions|] {
    }
  }

  /** The steps are t's, of its dequeues. */
  ghost predicate By(actions: seq<Action>, t: nat) {
    forall a :: a in actions ==> a.t == t && (a.Attempt? || a.SubStep?)
  }

  /** After n more steps of a lone dequeue in sub-queue i. */
  ghost predicate Followed(s: State, s': State, t: nat, i: nat, n: nat)
    requires Inv(s) && t < |s.ctl| && i < |s.subs|
  {
    assert T.Inv(s.subs[i]) && |s.subs[i].pcs| == |s.ctl|;
    var sub := T.Solo(s.subs[i], t, n);
    && s'.subs == s.subs[i := sub] && s'.sem == s.sem && t < |sub.pcs| && |s'.ctl| == |s.ctl|
    && s'.ctl == s.ctl[t := Ctl(s'.ctl[t].permits, if sub.pcs[t].Idle? then None else Some(i))]
    && sub.head + s'.ctl[t].permits == s.subs[i].head + s.ctl[t].permits
  }

  /** t runs alone for up to n steps of its dequeue. */
  lemma {:induction false} DequeuePath(s: State, t: nat, i: nat, n: nat) returns (states: seq<State>, actions: seq<Action>)
    requires Inv(s) && t < |s.ctl| && s.ctl[t].sub == Some(i) && i < |s.subs|
    ensures IsPath(states, actions) && states[0] == s && By(actions, t) && |actions| <= n
    ensures |states[|actions|].ctl| == |s.ctl| && Inv(states[|actions|]) && Followed(s, states[|actions|], t, i, n)
    decreases n
  {
    hide Inv, Next, Ready, T.StepOf;
    states, actions := [s], [];
    assert !s.subs[i].pcs[t].Idle? && T.Inv(s.subs[i]) && |s.subs[i].pcs| == |s.ctl| == |s.sem.pcs| by {
      InSub(s, t);
    }
    if n > 0 {
      NextKeepsInv(s, SubStep(t));
      var s1 := Next(s, SubStep(t));
      SubStepFacts(s, t, i);
      if s1.ctl[t].sub.None? {
        states, actions := [s, s1], [SubStep(t)];
        assert T.Solo(s1.subs[i], t, n - 1) == s1.subs[i];
        assert T.Solo(s.subs[i], t, n) == s1.subs[i];
        assert Followed(s, s1, t, i, n);
      } else {
        var rest, acts := DequeuePath(s1, t, i, n - 1);
        states, actions := [s] + rest, [SubStep(t)] + acts;
        assert states[|actions|] == rest[|acts|];
        assert T.Solo(s.subs[i], t, n) == T.Solo(s1.subs[i], t, n - 1);
        assert Followed(s, rest[|acts|], t, i, n);
      }
    }
  }

  lemma InSub(s: State, t: nat)
    requires Inv(s) && t < |s.ctl| && s.ctl[t].sub.Some?
    ensures var i := s.ctl[t].sub.value;
      i < |s.subs| && T.Inv(s.subs[i]) && |s.subs[i].pcs| == |s.ctl| == |s.sem.pcs| && !s.subs[i].pcs[t].Idle?
  {
    assert ThreadOk(s, t);
  }

  lemma SubStepFacts(s: State, t: nat, i: nat)
    requires Inv(s) && t < |s.ctl| && s.ctl[t].sub == Some(i) && i < |s.subs| && Ready(s, SubStep(t))
    ensures T.TicketsIssued(s.subs[i]) && t < |s.subs[i].pcs| && !s.subs[i].pcs[t].Idle?
    ensures var s', sub := Next(s, SubStep(t)), T.StepOf(s.subs[i], t);
      && s'.subs == s.subs[i := sub] && s'.sem == s.sem && T.Inv(sub) && |sub.pcs| == |s.subs[i].pcs|
      && s'.ctl == s.ctl[t := Ctl(s'.ctl[t].permits, if sub.pcs[t].Idle? then None else Some(i))]
      && sub.head + s'.ctl[t].permits == s.subs[i].head + s.ctl[t].permits
  {
    InSub(s, t);
    T.StepKeepsInv(s.subs[i], t);
    WantShrinks(s.subs[i], t);
  }

  /** One dequeue of a lone consumer: it takes what the sub-queue offers, and uses as many permits. */
  lemma VisitPath(s: State, t: nat, i: nat) returns (states: seq<State>, actions: seq<Action>)
    requires Inv(s) && t < |s.ctl| && s.ctl[t].permits > 0 && s.ctl[t].sub.None? && i < |s.subs|
    ensures IsPath(states, actions) && states[0] == s && By(actions, t) && |actions| <= 8
    ensures var s' := states[|actions|];
      && Inv(s') && s'.ctl == s.ctl[t := Ctl(s.ctl[t].permits - Offer(s.subs[i], s.ctl[t].permits), None)]
      && |s'.subs| == |s.subs| && s'.subs == s.subs[i := s'.subs[i]]
      && s'.subs[i].head == s.subs[i].head + Offer(s.subs[i], s.ctl[t].permits)
  {
    hide Inv, Next, Ready, T.Inv, T.Solo, T.Next;
    SameThreads(s);
    NextKeepsInv(s, Attempt(t, i));
    AttemptFacts(s, t, i);
    var s1, permits := Next(s, Attempt(t, i)), s.ctl[t].permits;
    T.SoloCall(s.subs[i], t, permits);
    states, actions := DequeuePath(s1, t, i, 7);
    var last, sub := states[|actions|], T.Solo(s1.subs[i], t, 7);
    assert sub.pcs[t].Idle? && sub.head == s.subs[i].head + Offer(s.subs[i], permits);
    assert last.ctl[t] == Ctl(permits - Offer(s.subs[i], permits), None);
    assert last.ctl == s.ctl[t := last.ctl[t]];
    states, actions := [s] + states, [Attempt(t, i)] + actions;
  }

  lemma SameThreads(s: State)
    requires Inv(s)
    ensures |s.ctl| == |s.sem.pcs|
  {
  }

  lemma AttemptFacts(s: State, t: nat, i: nat)
    requires Inv(s) && t < |s.ctl| && s.ctl[t].permits > 0 && s.ctl[t].sub.None? && i < |s.subs| && Ready(s, Attempt(t, i))
    ensures T.Inv(s.subs[i]) && T.TicketsIssued(s.subs[i]) && |s.subs[i].pcs| == |s.ctl| && s.subs[i].pcs[t].Idle?
    ensures var s' := Next(s, Attempt(t, i));
      && s'.subs == s.subs[i := T.Next(s.subs[i], T.Dequeue(t, s.ctl[t].permits))]
      && s'.ctl == s.ctl[t := Ctl(s.ctl[t].permits, Some(i))] && s'.subs[i].head == s.subs[i].head
  {
    assert ThreadOk(s, t);
  }

  /** Visiting the sub-queues from i on, one after the other, as long as there are permits. */
  lemma {:induction false} RoundPath(s: State, t: nat, i: nat) returns (states: seq<State>, actions: seq<Action>)
    requires Inv(s) && t < |s.ctl| && s.ctl[t].sub.None? && i <= |s.subs|
    ensures IsPath(states, actions) && states[0] == s && By(actions, t) && |actions| <= 8 * (|s.subs| - i)
    ensures var s' := states[|actions|];
      Inv(s') && s'.ctl == s.ctl[t := Ctl(s.ctl[t].permits - Pass(s.subs[i..], s.ctl[t].permits), None)]
    decreases |s.subs| - i
  {
    hide Inv, Next, Ready, Enabled, Surplus;
    PassTakesTheSurplus(s.subs[i..], s.ctl[t].permits);
    if i == |s.subs| || s.ctl[t].permits == 0 {
      states, actions := [s], [];
    } else {
      states, actions := VisitPath(s, t, i);
      var s1 := states[|actions|];
      assert s1.subs[i + 1..] == s.subs[i..][1..];
      var rest, acts := RoundPath(s1, t, i + 1);
      PathsJoin(states, actions, rest, acts);
      states, actions := states + rest[1..], actions + acts;
    }
  }

  /** t alone gets from s to where it holds no permits and is done, in at most 8 steps for each sub-queue. */
  ghost predicate EndsAlone(s: State, t: nat, states: seq<State>, actions: seq<Action>) {
    && IsPath(states, actions) && states[0] == s && By(actions, t) && |actions| <= 8 * |s.subs|
    && t < |states[|actions|].ctl| && states[|actions|].ctl[t] == FREE
  }

  /** The retry loop of a consumer that runs alone ends after one pass over the sub-queues: an element for every permit. */
  lemma RetryLoopEndsAlone(s: State, t: nat) returns (states: seq<State>, actions: seq<Action>)
    requires Inv(s) && t < |s.ctl| && s.ctl[t].permits > 0 && s.ctl[t].sub.None?
    ensures EndsAlone(s, t, states, actions)
    ensures Inv(states[|actions|]) && Elements(states[|actions|]) == Elements(s) - s.ctl[t].permits
  {
    var j := PermitGuaranteesElement(s, t);
    PassTakesTheSurplus(s.subs, s.ctl[t].permits);
    assert s.subs[0..] == s.subs;
    states, actions := RoundPath(s, t, 0);
    SemIsKept(states, actions, t, |actions|);
    var s' := states[|actions|];
    ElementsArePermits(s);
    ElementsArePermits(s');
    SumUpdate(Permits(), s.ctl, t, FREE);
  }

  lemma {:induction false} SemIsKept(states: seq<State>, actions: seq<Action>, t: nat, i: nat)
    requires IsPath(states, actions) && By(actions, t) && i < |states|
    ensures states[i].sem == states[0].sem
  {
    if i > 0 {
      SemIsKept(states, actions, t, i - 1);
      assert actions[i - 1] in actions;
    }
  }

  /** t alone has left s by tryWait(Many) for at most max units, and holds those it got as permits. */
  ghost predicate Acquires(s: State, t: nat, max: nat, states: seq<State>, actions: seq<Action>)
    requires t < |s.ctl|
  {
    && IsPath(states, actions) && states[0] == s && |actions| <= 4 && (forall a :: a in actions ==> a.t == t)
    && var s' := states[|actions|];
    && Inv(s') && s'.subs == s.subs && t < |s'.sem.pcs| && s'.sem.pcs[t].Idle?
    && s'.ctl == s.ctl[t := Ctl(S.Min(max, S.Positive(s.sem.count)), None)]
  }

  /** The semaphore has given t what there is, up to max, and t returns it. */
  ghost predicate Gives(sem: S.State, sem': S.State, t: nat, max: nat) {
    && S.Enabled(sem', S.Returned(t)) && sem'.pcs[t].result == S.Min(max, S.Positive(sem.count))
    && |S.Next(sem', S.Returned(t)).pcs| == |sem'.pcs| && S.Next(sem', S.Returned(t)).pcs[t] == S.Idle
  }

  /** A lone tryWait(Many): one CAS, or none if the count is not positive. */
  lemma TrySteps(sem: S.State, t: nat, max: nat)
    requires S.Enabled(sem, S.TryWait(t, max))
    ensures var s1 := S.Next(sem, S.TryWait(t, max));
      && S.Enabled(s1, S.Step(t))
      && var s2 := S.Next(s1, S.Step(t));
      && |s1.pcs| == |s2.pcs| == |sem.pcs|
      && (sem.count <= 0 ==> Gives(sem, s2, t, max))
      && (sem.count > 0 ==>
            S.Enabled(s2, S.Step(t)) && |S.Next(s2, S.Step(t)).pcs| == |sem.pcs| && Gives(sem, S.Next(s2, S.Step(t)), t, max))
  {
  }

  lemma AcquirePath(s: State, t: nat, max: nat) returns (states: seq<State>, actions: seq<Action>)
    requires Inv(s) && t < |s.ctl| && Enabled(s, Wait(t, S.TryWait(t, max)))
    ensures Acquires(s, t, max, states, actions)
  {
    hide Inv, Ready, S.StepOf, S.Next, S.Enabled;
    TrySteps(s.sem, t, max);
    var wait := Wait(t, S.TryWait(t, max));
    NextKeepsInv(s, wait);
    var s1 := Next(s, wait);
    NextKeepsInv(s1, SemStep(t));
    var s2 := Next(s1, SemStep(t));
    states, actions := [s, s1, s2], [wait, SemStep(t)];
    if s.sem.count > 0 {
      NextKeepsInv(s2, SemStep(t));
      states, actions := states + [Next(s2, SemStep(t))], actions + [SemStep(t)];
    }
    var last := states[|actions|];
    NextKeepsInv(last, Collect(t));
    states, actions := states + [Next(last, Collect(t))], actions + [Collect(t)];
  }

  /**
   try_dequeue and try_dequeue_bulk that run alone, from any reachable state: within 4 steps and 8 for each sub-queue they
   are over, with as many elements as they asked for, or as the count says there are.
   */
  lemma TryDequeueAlone(s: State, t: nat, max: nat) returns (states: seq<State>, actions: seq<Action>)
    requires Inv(s) && t < |s.ctl| && Enabled(s, Wait(t, S.TryWait(t, max)))
    ensures IsPath(states, actions) && states[0] == s && |actions| <= 4 + 8 * |s.subs| && (forall a :: a in actions ==> a.t == t)
    ensures var s' := states[|actions|];
      && Inv(s') && t < |s'.ctl| == |s'.sem.pcs| && s'.ctl[t] == FREE && s'.sem.pcs[t].Idle?
      && Elements(s') == Elements(s) - S.Min(max, S.Positive(s.sem.count))
  {
    hide Inv, Enabled, Ready, Next, By;
    states, actions := AcquirePath(s, t, max);
    var s1 := states[|actions|];
    assert s1.ctl[t] == Ctl(S.Min(max, S.Positive(s.sem.count)), None);
    SameThreads(s1);
    if s1.ctl[t] != FREE {
      var rest, acts := RetryLoopEndsAlone(s1, t);
      SemIsKept(rest, acts, t, |acts|);
      SameThreads(rest[|acts|]);
      ByMeans(acts, t);
      PathsJoin(states, actions, rest, acts);
      states, actions := states + rest[1..], actions + acts;
    }
  }

  lemma ByMeans(actions: seq<Action>, t: nat)
    requires By(actions, t)
    ensures forall a :: a in actions ==> a.t == t
  {
  }

  // ---------- quiescence ----------

  /** With no operation under way, size_approx is the exact number of elements. */
  lemma QuiescentSizeIsExact(s: State)
    requires Inv(s)
    requires forall t :: 0 <= t < |s.ctl| ==> s.ctl[t] == FREE && s.sem.pcs[t].Idle?
    ensures S.Positive(s.sem.count) == Elements(s)
  {
    SumZero(Permits(), s.ctl);
    SumZero(Unsignalled(), s.sem.pcs);
    SumZero(S.Held(), s.sem.pcs);
    S.QuiescentCountIsExact(s.sem);
    SumZero(S.Unposted(), s.sem.pcs);
    ElementsArePermits(s);
  }

  // ---------- one producer ----------

  ghost predicate NothingLost(s: State) {
    forall i :: 0 <= i < |s.subs| ==> s.subs[i].over == 0 && Sum(T.IsLost(), s.subs[i].outcome) == 0
  }

  /** With one producer, a ticket taken with permits is worth an element in full. */
  lemma TicketIsWorthInFull(s: State, t: nat)
    requires Inv(s) && |s.subs| == 1 && NothingLost(s)
    requires t < |s.ctl| && s.ctl[t].sub == Some(0) && s.subs[0].pcs[t].ReloadTail?
    ensures var pc := s.subs[0].pcs[t]; T.Worth(s.subs[0], pc.over, pc.my, pc.desired) == pc.desired
  {
    var sub := s.subs[0];
    assert T.PcOk(sub, t);
    SumPrefix(T.IsLost(), sub.outcome, sub.pcs[t].my);
    UnitsOfSub(s, 0);
    SumMonotone(PermitsIn(0), Permits(), s.ctl);
    ElementsArePermits(s);
    SumSingle(Tail(), s.subs);
    SumSingle(Head(), s.subs);
    assert Elements(s) == sub.tail - sub.head;
  }

  lemma OneProducerStep(s: State, a: Action)
    requires Inv(s) && |s.subs| == 1 && NothingLost(s) && Enabled(s, a)
    ensures Ready(s, a) && NothingLost(Next(s, a)) && |Next(s, a).subs| == 1
  {
    NextKeepsInv(s, a);
    var sub := s.subs[0];
    assert ThreadOk(s, a.t);
    if a.SubStep? {
      var pc := sub.pcs[a.t];
      assert T.PcOk(sub, a.t);
      SumAtLeast(T.ToReturn(), sub.pcs, a.t);
      if pc.ReloadTail? {
        TicketIsWorthInFull(s, a.t);
        T.DecideCounts(sub.outcome, a.t, pc.my, pc.desired, pc.desired);
      } else if pc.FetchOpt? {
        T.NewUnits(sub.outcome, a.t, pc.desired);
      }
    }
  }

  /** When all elements come from one producer, the overcommit stays 0 over every run. */
  lemma {:induction false} OneProducerNeverOvercommits(states: seq<State>, actions: seq<Action>, i: nat)
    requires IsRun(states, actions) && i < |states| && |states[0].subs| == 1
    ensures |states[i].subs| == 1 && NothingLost(states[i])
  {
    if i > 0 {
      OneProducerNeverOvercommits(states, actions, i - 1);
      RunsKeepInv(states, actions, i - 1);
      OneProducerStep(states[i - 1], actions[i - 1]);
    }
  }

  /** Over every run: elements never outnumber permits nor permits elements, and a permit alone suffices. */
  lemma PermitsAndElementsAgree(states: seq<State>, actions: seq<Action>, i: nat)
    requires IsRun(states, actions) && i < |states|
    ensures var s := states[i];
            && Elements(s) == Sum(Permits(), s.ctl) + Sum(S.Held(), s.sem.pcs)
                              + S.Positive(s.sem.count) + s.sem.kernel + Sum(S.Unposted(), s.sem.pcs)
                              + Sum(Unsignalled(), s.sem.pcs)
            && forall t :: 0 <= t < |s.ctl| && s.ctl[t].permits > 0 && s.ctl[t].sub.None?
                           ==> exists path, actions :: EndsAlone(s, t, path, actions)
  {
    var s := states[i];
    RunsKeepInv(states, actions, i);
    ElementsArePermits(s);
    forall t | 0 <= t < |s.ctl| && s.ctl[t].permits > 0 && s.ctl[t].sub.None?
      ensures exists path, acts :: EndsAlone(s, t, path, acts)
    {
      var path, acts := RetryLoopEndsAlone(s, t);
    }
  }
}
