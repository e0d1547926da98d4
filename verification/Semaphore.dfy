/**
 LightweightSemaphore: a user-space count over a kernel semaphore, as a step machine.

 Any number of threads wait (with any timeout, for one unit or many) and signal; one
 step is one atomic operation or one call of the kernel semaphore. Waiting for one
 unit is waiting for at most one of many: the two routines of the program differ in
 nothing else. A kernel wait that times out or fails, and a weak CAS that fails
 spuriously, are the `Fail` action of their thread, taken or not at will.
 `initial`, `signalled`, `granted` and `taken` (the sum of what finished calls
 returned) are history.
 */
module Semaphore {
  import opened Sums

  datatype Timeout = Zero | Forever | Finite

  /** What follows tryWaitMany: the call returns, or it goes on to wait if nothing was acquired. */
  datatype After = Return(already: nat) | ThenWait(timeout: Timeout, spins: nat)

  datatype Pc =
    | Idle
    | TryLoad(max: nat, after: After)                              // tryWaitMany: load the count
    | TryCas(max: nat, seen: int, after: After)                     // ... and CAS it (weak)
    | Spin(max: nat, spins: nat, timeout: Timeout)                 // partial spinning: load the count
    | SpinCas(max: nat, seen: int, spins: nat, timeout: Timeout)    // ... and CAS it
    | FetchSub(max: nat, timeout: Timeout)                         // take one, perhaps below zero
    | Sleep(max: nat)                                              // wait on the kernel semaphore
    | UndoLoad(max: nat)                                           // timed out: load the count
    | UndoTry(max: nat)                                            // it was signalled: try the kernel semaphore
    | UndoCas(max: nat, seen: int)                                  // it was not: give the unit back
    | SignalAdd(count: nat)
    | SignalPost(release: nat)
    | Done(max: nat, result: nat)                                  // acquired `result` of at most `max`

  datatype State = State(count: int, kernel: nat, pcs: seq<Pc>, granted: nat, signalled: nat, initial: nat, taken: nat)

  datatype Action =
    | TryWait(t: nat, max: nat)
    | Wait(t: nat, max: nat, timeout: Timeout, spins: nat)
    | Signal(t: nat, count: nat)
    | Step(t: nat)
    | Fail(t: nat)
    | Returned(t: nat)

  // ---------- transitions ----------

  predicate Enabled(s: State, a: Action) {
    && a.t < |s.pcs|
    && match a
       case TryWait(t, max) => s.pcs[t].Idle?
       case Wait(t, max, _, _) => s.pcs[t].Idle?
       case Signal(t, _) => s.pcs[t].Idle?
       case Step(t) => !s.pcs[t].Idle? && !s.pcs[t].Done? && (s.pcs[t].Sleep? ==> s.kernel > 0)
       case Fail(t) => s.pcs[t].Sleep? || s.pcs[t].TryCas?
       case Returned(t) => s.pcs[t].Done?
  }

  function Go(s: State, t: nat, pc: Pc): State
    requires t < |s.pcs|
  {
    s.(pcs := s.pcs[t := pc])
  }

  function Min(a: int, b: int): int {
    if a < b then a else b
  }

  function Positive(a: int): nat {
    if a > 0 then a else 0
  }

  /** The count left after acquiring greedily at most max. */
  function Rest(seen: int, max: nat): int {
    if seen > max then seen - max else 0
  }

  /** tryWaitMany has returned r. */
  function AfterTry(max: nat, r: nat, after: After): Pc {
    match after
    case Return(already) => Done(already + max, already + r)
    case ThenWait(timeout, spins) => if r == 0 && max > 0 then Spin(max, spins, timeout) else Done(max, r)
  }

  /** The loop test of tryWaitMany, with `seen` just read. */
  function TryLoop(max: nat, seen: int, after: After): Pc {
    if seen > 0 then TryCas(max, seen, after) else AfterTry(max, 0, after)
  }

  /** One unit was acquired the slow way: acquire more without waiting, if more are wanted. */
  function Acquired(max: nat): Pc {
    if max > 1 then TryLoad(max - 1, Return(1)) else Done(1, 1)
  }

  function Slow(max: nat, timeout: Timeout): Pc {
    if timeout.Zero? then UndoLoad(max) else Sleep(max)
  }

  /** The units a signal of `count` that found `seen` must post to the kernel semaphore. */
  function ToRelease(seen: int, count: nat): int {
    Min(-seen, count)
  }

  function Grant(s: State, n: nat): State {
    s.(granted := s.granted + n)
  }

  function StepOf(s: State, t: nat): State
    requires Enabled(s, Step(t))
  {
    match s.pcs[t]
    case TryLoad(max, after) => Go(s, t, TryLoop(max, s.count, after))
    case TryCas(max, seen, after) =>
      if s.count == seen then
        var n := Positive(seen - Rest(seen, max));
        Go(Grant(s.(count := Rest(seen, max)), n), t, AfterTry(max, n, after))
      else Go(s, t, TryLoop(max, s.count, after))
    case Spin(max, spins, timeout) =>
      if spins == 0 then Go(s, t, FetchSub(max, timeout))
      else if s.count > 0 then Go(s, t, SpinCas(max, s.count, spins - 1, timeout))
      else Go(s, t, Spin(max, spins - 1, timeout))
    case SpinCas(max, seen, spins, timeout) =>
      if s.count == seen then
        var n := Positive(seen - Rest(seen, max));
        Go(Grant(s.(count := Rest(seen, max)), n), t, Done(max, n))
      else Go(s, t, Spin(max, spins, timeout))
    case FetchSub(max, timeout) =>
      var s1 := s.(count := s.count - 1);
      if s.count > 0 then Go(Grant(s1, 1), t, Acquired(max))
      else Go(s1, t, Slow(max, timeout))
    case Sleep(max) => Go(Grant(s.(kernel := s.kernel - 1), 1), t, Acquired(max))
    case UndoLoad(max) => Go(s, t, if s.count >= 0 then UndoTry(max) else UndoCas(max, s.count))
    case UndoTry(max) =>
      if s.kernel > 0 then Go(Grant(s.(kernel := s.kernel - 1), 1), t, Acquired(max))
      else Go(s, t, UndoLoad(max))
    case UndoCas(max, seen) =>
      if s.count == seen then Go(s.(count := seen + 1), t, Done(max, 0))
      else Go(s, t, UndoLoad(max))
    case SignalAdd(count) =>
      var s1 := s.(count := s.count + count, signalled := s.signalled + count);
      var release := ToRelease(s.count, count);
      Go(s1, t, if release > 0 then SignalPost(release) else Done(0, 0))
    case SignalPost(release) => Go(s.(kernel := s.kernel + release), t, Done(0, 0))
  }

  function Next(s: State, a: Action): State
    requires Enabled(s, a)
  {
    match a
    case TryWait(t, max) => Go(s, t, TryLoad(max, Return(0)))
    case Wait(t, max, timeout, spins) => Go(s, t, TryLoad(max, ThenWait(timeout, spins)))
    case Signal(t, count) => Go(s, t, SignalAdd(count))
    case Step(t) => StepOf(s, t)
    case Fail(t) =>
      var pc := s.pcs[t];
      Go(s, t, if pc.Sleep? then UndoLoad(pc.max) else TryLoop(pc.max, s.count, pc.after))
    case Returned(t) => Go(s.(taken := s.taken + s.pcs[t].result), t, Idle)
  }

  // ---------- the invariant ----------

  /** A thread that took the count to zero or below and has neither been granted a unit nor given up. */
  predicate Waits(pc: Pc) {
    pc.Sleep? || pc.UndoLoad? || pc.UndoTry? || pc.UndoCas?
  }

  ghost function Waiting(): Pc -> nat {
    (pc: Pc) => if Waits(pc) then 1 else 0
  }

  /** Units a signaller has added to the count for sleeping threads and not posted yet. */
  ghost function Unposted(): Pc -> nat {
    (pc: Pc) => if pc.SignalPost? then pc.release else 0
  }

  /** Units granted to a call that has not returned yet. */
  ghost function Held(): Pc -> nat {
    (pc: Pc) =>
      if pc.Done? then pc.result
      else if (pc.TryLoad? || pc.TryCas?) && pc.after.Return? then pc.after.already
      else 0
  }

  predicate PcOk(pc: Pc) {
    match pc
    case Idle => true
    case Spin(max, _, _) => max >= 1
    case TryLoad(_, _) => true
    case TryCas(_, seen, _) => seen > 0
    case SpinCas(max, seen, _, _) => max >= 1 && seen > 0
    case FetchSub(max, _) => max >= 1
    case Sleep(max) => max >= 1
    case UndoLoad(max) => max >= 1
    case UndoTry(max) => max >= 1
    case UndoCas(max, seen) => max >= 1 && seen < 0
    case SignalAdd(_) => true
    case SignalPost(release) => release >= 1
    case Done(max, result) => result <= max
  }

  ghost predicate Inv(s: State) {
    && (forall t :: 0 <= t < |s.pcs| ==> PcOk(s.pcs[t]))
    && Sum(Waiting(), s.pcs) == s.kernel + Sum(Unposted(), s.pcs) + Positive(-s.count)
    && s.count + Sum(Waiting(), s.pcs) + s.granted == s.initial + s.signalled
    && s.granted == s.taken + Sum(Held(), s.pcs)
  }

  ghost predicate Init(s: State) {
    && s.count == s.initial && s.kernel == s.granted == s.signalled == s.taken == 0
    && forall t :: 0 <= t < |s.pcs| ==> s.pcs[t].Idle?
  }

  lemma InitInv(s: State)
    requires Init(s)
    ensures Inv(s)
  {
    SumZero(Waiting(), s.pcs);
    SumZero(Unposted(), s.pcs);
    SumZero(Held(), s.pcs);
  }

  lemma CountsMove(pcs: seq<Pc>, t: nat, pc: Pc)
    requires t < |pcs|
    ensures Sum(Waiting(), pcs[t := pc]) + Waiting()(pcs[t]) == Sum(Waiting(), pcs) + Waiting()(pc)
    ensures Sum(Unposted(), pcs[t := pc]) + Unposted()(pcs[t]) == Sum(Unposted(), pcs) + Unposted()(pc)
    ensures Sum(Held(), pcs[t := pc]) + Held()(pcs[t]) == Sum(Held(), pcs) + Held()(pc)
  {
    SumUpdate(Waiting(), pcs, t, pc);
    SumUpdate(Unposted(), pcs, t, pc);
    SumUpdate(Held(), pcs, t, pc);
  }

  /** A step of t keeps the invariant if it balances the counters against t's own contributions. */
  lemma BalancedStep(s: State, s': State, t: nat, pc: Pc)
    requires Inv(s) && t < |s.pcs| && s'.pcs == s.pcs[t := pc] && PcOk(pc)
    requires s'.initial == s.initial
    requires s'.kernel + Unposted()(pc) + Positive(-s'.count) + Waiting()(s.pcs[t])
             == s.kernel + Unposted()(s.pcs[t]) + Positive(-s.count) + Waiting()(pc)
    requires s'.count + Waiting()(pc) + s'.granted - s'.signalled
             == s.count + Waiting()(s.pcs[t]) + s.granted - s.signalled
    requires s'.granted + s.taken + Held()(s.pcs[t]) == s.granted + s'.taken + Held()(pc)
    ensures Inv(s')
  {
    CountsMove(s.pcs, t, pc);
  }

  lemma TryKeepsInv(s: State, t: nat)
    requires Inv(s) && Enabled(s, Step(t))
    requires s.pcs[t].TryLoad? || s.pcs[t].TryCas? || s.pcs[t].Spin? || s.pcs[t].SpinCas?
    ensures Inv(StepOf(s, t))
  {
    assert PcOk(s.pcs[t]);
    BalancedStep(s, StepOf(s, t), t, StepOf(s, t).pcs[t]);
  }

  lemma WaitKeepsInv(s: State, t: nat)
    requires Inv(s) && Enabled(s, Step(t))
    requires s.pcs[t].FetchSub? || s.pcs[t].Sleep? || s.pcs[t].UndoLoad? || s.pcs[t].UndoTry? || s.pcs[t].UndoCas?
    ensures Inv(StepOf(s, t))
  {
    assert PcOk(s.pcs[t]);
    BalancedStep(s, StepOf(s, t), t, StepOf(s, t).pcs[t]);
  }

  lemma SignalKeepsInv(s: State, t: nat)
    requires Inv(s) && Enabled(s, Step(t)) && (s.pcs[t].SignalAdd? || s.pcs[t].SignalPost?)
    ensures Inv(StepOf(s, t))
  {
    BalancedStep(s, StepOf(s, t), t, StepOf(s, t).pcs[t]);
  }

  lemma NextKeepsInv(s: State, a: Action)
    requires Inv(s) && Enabled(s, a)
    ensures Inv(Next(s, a))
  {
    var pc := s.pcs[a.t];
    assert PcOk(pc);
    if !a.Step? {
      BalancedStep(s, Next(s, a), a.t, Next(s, a).pcs[a.t]);
    } else if pc.TryLoad? || pc.TryCas? || pc.Spin? || pc.SpinCas? {
      TryKeepsInv(s, a.t);
    } else if pc.SignalAdd? || pc.SignalPost? {
      SignalKeepsInv(s, a.t);
    } else {
      WaitKeepsInv(s, a.t);
    }
  }

  // ---------- every run ----------

  ghost predicate IsRun(states: seq<State>, actions: seq<Action>) {
    && |states| == |actions| + 1
    && Init(states[0])
    && forall i :: 0 <= i < |actions| ==> Enabled(states[i], actions[i]) && states[i + 1] == Next(states[i], actions[i])
  }

  lemma {:induction false} RunsKeepInv(states: seq<State>, actions: seq<Action>, i: nat)
    requires IsRun(states, actions) && i < |states|
    ensures Inv(states[i])
  {
    if i == 0 {
      InitInv(states[0]);
    } else {
      RunsKeepInv(states, actions, i - 1);
      NextKeepsInv(states[i - 1], actions[i - 1]);
    }
  }

  /** Never more units granted than there were and were signalled; what is left is the count or in the kernel. */
  lemma GrantsAreBacked(s: State)
    requires Inv(s)
    ensures s.initial + s.signalled == s.granted + Positive(s.count) + s.kernel + Sum(Unposted(), s.pcs)
    ensures s.granted <= s.initial + s.signalled
  {
  }

  /** In every run, with any timeouts: no unit is granted twice. */
  lemma NoOvergrant(states: seq<State>, actions: seq<Action>, i: nat)
    requires IsRun(states, actions) && i < |states|
    ensures states[i].granted <= states[i].initial + states[i].signalled
  {
    RunsKeepInv(states, actions, i);
  }

  /** A timed-out waiter that finds the count not negative has a permit to take: posted, or about to be. */
  lemma TimedOutWaiterFindsPermit(s: State, t: nat)
    requires Inv(s) && t < |s.pcs| && Waits(s.pcs[t]) && s.count >= 0
    ensures s.kernel + Sum(Unposted(), s.pcs) >= 1
  {
    SumAtLeast(Waiting(), s.pcs, t);
  }

  /** No wake-up is lost: while a thread sleeps and no permit is posted or on its way, every unit is taken. */
  lemma NoLostWakeup(s: State, t: nat)
    requires Inv(s) && t < |s.pcs| && Waits(s.pcs[t])
    requires s.kernel == 0 && Sum(Unposted(), s.pcs) == 0
    ensures s.granted == s.initial + s.signalled && s.count < 0
  {
    SumAtLeast(Waiting(), s.pcs, t);
  }

  /** The undo loop run alone ends in two steps, unless a signaller still owes the kernel a permit. */
  lemma UndoEnds(s: State, t: nat)
    requires Inv(s) && t < |s.pcs| && s.pcs[t].UndoLoad? && Sum(Unposted(), s.pcs) == 0
    ensures Enabled(StepOf(s, t), Step(t))
    ensures s.count < 0 ==> StepOf(StepOf(s, t), t) == Go(s.(count := s.count + 1), t, Done(s.pcs[t].max, 0))
    ensures s.count >= 0 ==> s.kernel > 0
    ensures s.count >= 0 ==>
      StepOf(StepOf(s, t), t) == Go(Grant(s.(kernel := s.kernel - 1), 1), t, Acquired(s.pcs[t].max))
  {
    SumAtLeast(Waiting(), s.pcs, t);
  }

  /** With no call under way, what availableApprox reports is exact. */
  lemma QuiescentCountIsExact(s: State)
    requires Inv(s)
    requires forall t :: 0 <= t < |s.pcs| ==> s.pcs[t].Idle?
    ensures s.kernel == 0 && s.count == Positive(s.count) == s.initial + s.signalled - s.granted
  {
    SumZero(Waiting(), s.pcs);
    SumZero(Unposted(), s.pcs);
  }

  /** Finished calls returned exactly what was granted, and no call more than it asked for. */
  lemma ResultsAreGrants(s: State, t: nat)
    requires Inv(s) && t < |s.pcs|
    ensures s.taken + Sum(Held(), s.pcs) == s.granted
    ensures s.pcs[t].Done? ==> s.pcs[t].result <= s.pcs[t].max
  {
    assert PcOk(s.pcs[t]);
  }

  // ---------- a call that runs alone ----------

  /** Up to n steps of t, as long as it can take one. */
  function Solo(s: State, t: nat, n: nat): State
    decreases n
  {
    if n == 0 || !Enabled(s, Step(t)) then s else Solo(StepOf(s, t), t, n - 1)
  }

  /** A call has got r units, taken from the count; the rest of the state is as it was. */
  function Got(s: State, t: nat, max: nat, already: nat, r: nat): State
    requires t < |s.pcs|
  {
    Go(Grant(s.(count := s.count - r), r), t, Done(already + max, already + r))
  }

  /** From the loop test on, tryWaitMany takes all there is, up to what is wanted. */
  lemma SoloTryLoop(s: State, t: nat, max: nat, already: nat)
    requires t < |s.pcs|
    ensures var r := Min(max, Positive(s.count));
            Solo(Go(s, t, TryLoop(max, s.count, Return(already))), t, 1) == Got(s, t, max, already, r)
  {
    var s1 := Go(s, t, TryLoop(max, s.count, Return(already)));
    assert s.count > 0 ==> Solo(s1, t, 1) == Solo(StepOf(s1, t), t, 0);
    assert s.pcs[t := s1.pcs[t]][t := Done(already + max, already + Min(max, Positive(s.count)))]
        == s.pcs[t := Done(already + max, already + Min(max, Positive(s.count)))];
  }

  /** tryWait, tryWaitMany: with nobody interfering, exactly what there is, up to max. */
  lemma SoloTryWait(s: State, t: nat, max: nat)
    requires Enabled(s, TryWait(t, max))
    ensures Solo(Next(s, TryWait(t, max)), t, 2) == Got(s, t, max, 0, Min(max, Positive(s.count)))
  {
    var s1 := Next(s, TryWait(t, max));
    assert Solo(s1, t, 2) == Solo(StepOf(s1, t), t, 1);
    assert StepOf(s1, t) == Go(s, t, TryLoop(max, s.count, Return(0)));
    SoloTryLoop(s, t, max, 0);
  }

  lemma SoloMore(s: State, t: nat, n: nat)
    requires n > 0 && Enabled(s, Step(t))
    ensures Solo(s, t, n) == Solo(StepOf(s, t), t, n - 1)
  {
  }

  lemma SoloOver(s: State, t: nat, n: nat)
    requires t < |s.pcs| && s.pcs[t].Done?
    ensures Solo(s, t, n) == s
  {
  }

  /** Storing t's place twice is storing it once. */
  lemma GoAgain(s: State, t: nat, pc: Pc, pc': Pc)
    requires t < |s.pcs|
    ensures Go(Go(s, t, pc), t, pc') == Go(s, t, pc')
  {
    assert s.pcs[t := pc][t := pc'] == s.pcs[t := pc'];
  }

  /** One unit has been got the slow way: the rest that is there is taken too, up to max. */
  lemma SoloAcquired(s: State, t: nat, max: nat)
    requires t < |s.pcs| && max >= 1
    ensures Solo(Go(Grant(s, 1), t, Acquired(max)), t, 2)
            == Go(Grant(s.(count := s.count - Min(max - 1, Positive(s.count))), 1 + Min(max - 1, Positive(s.count))), t,
                  Done(max, 1 + Min(max - 1, Positive(s.count))))
  {
    var s0 := Grant(s, 1);
    var s1 := Go(s0, t, Acquired(max));
    if max == 1 {
      SoloOver(s1, t, 2);
    } else {
      SoloMore(s1, t, 2);
      assert StepOf(s1, t) == Go(s0, t, TryLoop(max - 1, s.count, Return(1))) by {
        GoAgain(s0, t, Acquired(max), TryLoop(max - 1, s.count, Return(1)));
      }
      SoloTryLoop(s0, t, max - 1, 1);
    }
  }

  /** Spinning finds what there is; when it is over, one unit is taken at once, and then as many as there are, up to max. */
  lemma SoloSpinGets(s: State, t: nat, max: nat, spins: nat, timeout: Timeout)
    requires t < |s.pcs| && max >= 1 && s.count > 0
    ensures Solo(Go(s, t, Spin(max, spins, timeout)), t, 4) == Got(s, t, max, 0, Min(max, s.count))
  {
    hide Solo;
    var s1, r := Go(s, t, Spin(max, spins, timeout)), Min(max, s.count);
    SoloMore(s1, t, 4);
    if spins == 0 {
      var s2 := Go(s, t, FetchSub(max, timeout));
      GoAgain(s, t, s1.pcs[t], FetchSub(max, timeout));
      SoloMore(s2, t, 3);
      GoAgain(s, t, s2.pcs[t], Acquired(max));
      SoloAcquired(s.(count := s.count - 1), t, max);
    } else {
      var s2 := Go(s, t, SpinCas(max, s.count, spins - 1, timeout));
      GoAgain(s, t, s1.pcs[t], SpinCas(max, s.count, spins - 1, timeout));
      SoloMore(s2, t, 3);
      GoAgain(s, t, s2.pcs[t], Done(max, r));
      SoloOver(Got(s, t, max, 0, r), t, 2);
    }
  }

  /** Spinning that finds nothing ends with one unit taken in advance: the count is one less. */
  lemma {:induction false} SoloSpinEnds(s: State, t: nat, max: nat, spins: nat, timeout: Timeout, more: nat)
    requires t < |s.pcs| && max >= 1 && s.count <= 0
    ensures Solo(Go(s, t, Spin(max, spins, timeout)), t, spins + 2 + more)
            == Solo(Go(s.(count := s.count - 1), t, Slow(max, timeout)), t, more)
    decreases spins
  {
    hide Solo;
    var s1 := Go(s, t, Spin(max, spins, timeout));
    SoloMore(s1, t, spins + 2 + more);
    if spins == 0 {
      GoAgain(s, t, s1.pcs[t], FetchSub(max, timeout));
      var s2 := Go(s, t, FetchSub(max, timeout));
      SoloMore(s2, t, 1 + more);
      GoAgain(s, t, s2.pcs[t], Slow(max, timeout));
    } else {
      GoAgain(s, t, s1.pcs[t], Spin(max, spins - 1, timeout));
      SoloSpinEnds(s, t, max, spins - 1, timeout, more);
    }
  }

  /** wait, waitMany: what there is, up to max, at once; if there is nothing, all but a timeout of 0 goes to sleep. */
  lemma SoloWait(s: State, t: nat, max: nat, timeout: Timeout, spins: nat)
    requires Enabled(s, Wait(t, max, timeout, spins))
    ensures var s1 := Next(s, Wait(t, max, timeout, spins));
            if s.count > 0 || max == 0 then Solo(s1, t, 2) == Got(s, t, max, 0, Min(max, Positive(s.count)))
            else if timeout.Zero? then Solo(s1, t, spins + 5) == Got(s, t, max, 0, 0)
            else Solo(s1, t, spins + 3) == Go(s.(count := s.count - 1), t, Sleep(max))
  {
    hide Solo;
    var s1 := Next(s, Wait(t, max, timeout, spins));
    if s.count > 0 {
      var s2 := Go(s, t, TryCas(max, s.count, ThenWait(timeout, spins)));
      SoloMore(s1, t, 2);
      GoAgain(s, t, s1.pcs[t], s2.pcs[t]);
      SoloMore(s2, t, 1);
      GoAgain(s, t, s2.pcs[t], Done(max, Min(max, s.count)));
      SoloOver(Got(s, t, max, 0, Min(max, s.count)), t, 0);
    } else if max == 0 {
      SoloMore(s1, t, 2);
      GoAgain(s, t, s1.pcs[t], Done(0, 0));
      SoloOver(Got(s, t, 0, 0, 0), t, 1);
    } else {
      var more: nat := if timeout.Zero? then 2 else 0;
      SoloMore(s1, t, spins + 3 + more);
      GoAgain(s, t, s1.pcs[t], Spin(max, spins, timeout));
      SoloSpinEnds(s, t, max, spins, timeout, more);
      if timeout.Zero? {
        SoloGivesUp(s, t, max);
      } else {
        SoloNone(Go(s.(count := s.count - 1), t, Sleep(max)), t);
      }
    }
  }

  lemma SoloNone(s: State, t: nat)
    ensures Solo(s, t, 0) == s
  {
  }

  /** A waiter that gives up when no permit has come puts its unit back. */
  lemma SoloGivesUp(s: State, t: nat, max: nat)
    requires t < |s.pcs| && s.count <= 0
    ensures Solo(Go(s.(count := s.count - 1), t, UndoLoad(max)), t, 2) == Got(s, t, max, 0, 0)
  {
    hide Solo;
    var s1 := Go(s.(count := s.count - 1), t, UndoLoad(max));
    var s2 := Go(s.(count := s.count - 1), t, UndoCas(max, s.count - 1));
    SoloMore(s1, t, 2);
    GoAgain(s.(count := s.count - 1), t, s1.pcs[t], s2.pcs[t]);
    SoloMore(s2, t, 1);
    GoAgain(s, t, s2.pcs[t], Done(max, 0));
    SoloOver(Got(s, t, max, 0, 0), t, 0);
  }

  /** A sleeper with a permit in the kernel wakes up, and takes what else there is, up to max. */
  lemma SoloWakes(s: State, t: nat)
    requires t < |s.pcs| && s.pcs[t].Sleep? && s.kernel > 0 && s.pcs[t].max >= 1
    ensures var max := s.pcs[t].max;
            var more := Min(max - 1, Positive(s.count));
            Solo(s, t, 3) == Go(Grant(s.(kernel := s.kernel - 1, count := s.count - more), 1 + more), t, Done(max, 1 + more))
  {
    hide Solo, Min, Positive, Acquired;
    var s1 := s.(kernel := s.kernel - 1);
    SoloMore(s, t, 3);
    assert StepOf(s, t) == Go(Grant(s1, 1), t, Acquired(s.pcs[t].max));
    SoloAcquired(s1, t, s.pcs[t].max);
  }

  /** signal: the count grows by as much, and the kernel by what sleepers are owed of it. */
  lemma SoloSignal(s: State, t: nat, count: nat)
    requires Enabled(s, Signal(t, count))
    ensures Solo(Next(s, Signal(t, count)), t, 2)
            == Go(s.(count := s.count + count, signalled := s.signalled + count,
                     kernel := s.kernel + Min(Positive(-s.count), count)), t, Done(0, 0))
  {
    hide Solo;
    var s1 := Next(s, Signal(t, count));
    var s2 := StepOf(s1, t);
    SoloMore(s1, t, 2);
    GoAgain(s, t, s1.pcs[t], s2.pcs[t]);
    if s2.pcs[t].Done? {
      SoloOver(s2, t, 1);
    } else {
      SoloMore(s2, t, 1);
      GoAgain(s.(count := s.count + count, signalled := s.signalled + count), t, s2.pcs[t], Done(0, 0));
      SoloNone(StepOf(s2, t), t);
    }
  }

  // ---------- nothing is refused that is there ----------

  /** The step that ends a call with less than it wanted has found, or leaves, no unit in the count. */
  lemma FewerOnlyIfNone(s: State, a: Action)
    requires Inv(s) && Enabled(s, a) && !s.pcs[a.t].Done?
    requires Next(s, a).pcs[a.t].Done? && Next(s, a).pcs[a.t].result < Next(s, a).pcs[a.t].max
    ensures Next(s, a).count <= 0
    ensures Next(s, a).pcs[a.t].result == 0 ==> s.count <= 0
  {
    assert PcOk(s.pcs[a.t]);
  }

  /** In every run: a call that gets less than it wants has seen the count at 0 or below, and one that gets nothing found it so. */
  lemma {:induction false} FailedCallFoundNone(states: seq<State>, actions: seq<Action>, k: nat, t: nat) returns (j: nat)
    requires IsRun(states, actions) && k < |states| && t < |states[k].pcs|
    requires states[k].pcs[t].Done? && states[k].pcs[t].result < states[k].pcs[t].max
    ensures j < k && actions[j].t == t && t < |states[j].pcs| && !states[j].pcs[t].Idle? && !states[j].pcs[t].Done?
    ensures forall i :: j < i <= k ==> |states[i].pcs| == |states[k].pcs| && states[i].pcs[t] == states[k].pcs[t]
    ensures states[j + 1].count <= 0 && (states[k].pcs[t].result == 0 ==> states[j].count <= 0)
  {
    hide Inv, Next, Enabled;
    assert k > 0 by {
      assert Init(states[0]);
    }
    var s, a := states[k - 1], actions[k - 1];
    RunsKeepInv(states, actions, k - 1);
    PlacesMove(s, a);
    if a.t == t && !s.pcs[t].Done? {
      FewerOnlyIfNone(s, a);
      j := k - 1;
    } else {
      j := FailedCallFoundNone(states, actions, k - 1, t);
    }
  }

  /** Only the acting thread moves; a call does not end as it begins, and leaves its result only by returning. */
  lemma PlacesMove(s: State, a: Action)
    requires Enabled(s, a)
    ensures a.t < |s.pcs| == |Next(s, a).pcs| && forall u :: 0 <= u < |s.pcs| && u != a.t ==> Next(s, a).pcs[u] == s.pcs[u]
    ensures s.pcs[a.t].Done? ==> Next(s, a).pcs[a.t].Idle?
    ensures s.pcs[a.t].Idle? ==> !Next(s, a).pcs[a.t].Done?
  {
  }
}
