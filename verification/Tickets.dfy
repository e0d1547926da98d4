/**
 The dequeue protocol of one producer's sub-queue, as a step machine.

 One producer advances `tail`; any number of threads run `dequeue` (a bulk dequeue
 with max 1) and `dequeue_bulk`. A thread takes ticket units with a fetch_add on the
 optimistic count, decides from a fresh tail and a stale overcommit how many of them
 are worth an element, returns the others through the overcommit and takes its
 indices from `head`. One step is one atomic operation. Indices are unbounded here;
 module Circular relates them to the wrapping ones of the program.

 `outcome` is the history of every ticket unit ever taken and `claims` of every
 range of indices handed out; no step reads them.
 */
module Tickets {
  import opened Sums

  datatype Outcome = Undecided(t: nat) | Won | Lost

  datatype Claim = Claim(t: nat, first: nat, count: nat)

  /** What a thread does next. */
  datatype Pc =
    | Idle
    | LoadTail(max: nat)
    | LoadOver(max: nat, tail: nat)
    | LoadOpt(max: nat, tail: nat, over: nat)
    | FetchOpt(over: nat, desired: nat)
    | ReloadTail(over: nat, my: nat, desired: nat)
    | AddOver(back: nat, actual: nat)
    | FetchHead(actual: nat)
    | Reading(first: nat, count: nat)

  datatype State = State(
    tail: nat, head: nat, opt: nat, over: nat, pcs: seq<Pc>,
    outcome: seq<Outcome>, claims: seq<Claim>)

  datatype Action =
    | Enqueue(count: nat)          // the producer publishes `count` more elements
    | Dequeue(t: nat, max: nat)    // a call of dequeue (max 1) or dequeue_bulk
    | Step(t: nat)

  function Min(a: int, b: int): int {
    if a < b then a else b
  }

  // ---------- transitions ----------

  predicate Enabled(s: State, a: Action) {
    match a
    case Enqueue(_) => true
    case Dequeue(t, max) => t < |s.pcs| && s.pcs[t].Idle? && max >= 1
    case Step(t) => t < |s.pcs| && !s.pcs[t].Idle?
  }

  function Go(s: State, t: nat, pc: Pc): State
    requires t < |s.pcs|
  {
    s.(pcs := s.pcs[t := pc])
  }

  /** The units that look available to a thread that read these values. */
  function Available(tail: nat, opt: nat, over: nat): int {
    tail - (opt - over)
  }

  function LoadOptStep(s: State, t: nat, max: nat, tail: nat, over: nat): State
    requires t < |s.pcs|
  {
    var available := Available(tail, s.opt, over);
    Go(s, t, if available <= 0 then Idle else FetchOpt(over, Min(available, max)))
  }

  function FetchOptStep(s: State, t: nat, over: nat, desired: nat): State
    requires t < |s.pcs|
  {
    Go(s.(opt := s.opt + desired, outcome := s.outcome + Repeat(Undecided(t), desired)),
       t, ReloadTail(over, s.opt, desired))
  }

  /** The units of a ticket that are worth an element, given the tail as it is now. */
  function Worth(s: State, over: nat, my: nat, desired: nat): (actual: nat)
    ensures actual <= desired
  {
    var available := Available(s.tail, my, over);
    if available <= 0 then 0 else Min(available, desired)
  }

  /** The history once the ticket [my, my + desired) is decided: its first `actual` units won. */
  function Decide(outcome: seq<Outcome>, my: nat, desired: nat, actual: nat): seq<Outcome>
    requires my + desired <= |outcome| && actual <= desired
  {
    outcome[..my] + Repeat(Won, actual) + Repeat(Lost, desired - actual) + outcome[my + desired..]
  }

  function ReloadTailStep(s: State, t: nat, over: nat, my: nat, desired: nat): State
    requires t < |s.pcs| && my + desired <= |s.outcome|
  {
    var actual := Worth(s, over, my, desired);
    Go(s.(outcome := Decide(s.outcome, my, desired, actual)), t,
       if actual == desired then FetchHead(actual) else AddOver(desired - actual, actual))
  }

  function AddOverStep(s: State, t: nat, back: nat, actual: nat): State
    requires t < |s.pcs|
  {
    Go(s.(over := s.over + back), t, if actual == 0 then Idle else FetchHead(actual))
  }

  function FetchHeadStep(s: State, t: nat, actual: nat): State
    requires t < |s.pcs|
  {
    Go(s.(head := s.head + actual, claims := s.claims + [Claim(t, s.head, actual)]), t, Reading(s.head, actual))
  }

  /** Every ticket a thread holds has been issued. */
  predicate TicketsIssued(s: State) {
    forall t :: 0 <= t < |s.pcs| && s.pcs[t].ReloadTail? ==> s.pcs[t].my + s.pcs[t].desired <= |s.outcome|
  }

  function StepOf(s: State, t: nat): State
    requires TicketsIssued(s) && t < |s.pcs| && !s.pcs[t].Idle?
  {
    match s.pcs[t]
    case LoadTail(max) => Go(s, t, LoadOver(max, s.tail))
    case LoadOver(max, tail) => Go(s, t, LoadOpt(max, tail, s.over))
    case LoadOpt(max, tail, over) => LoadOptStep(s, t, max, tail, over)
    case FetchOpt(over, desired) => FetchOptStep(s, t, over, desired)
    case ReloadTail(over, my, desired) => ReloadTailStep(s, t, over, my, desired)
    case AddOver(back, actual) => AddOverStep(s, t, back, actual)
    case FetchHead(actual) => FetchHeadStep(s, t, actual)
    case Reading(_, _) => Go(s, t, Idle)
  }

  function Next(s: State, a: Action): State
    requires TicketsIssued(s) && Enabled(s, a)
  {
    match a
    case Enqueue(count) => s.(tail := s.tail + count)
    case Dequeue(t, max) => Go(s, t, LoadTail(max))
    case Step(t) => StepOf(s, t)
  }

  // ---------- the invariant ----------

  ghost function IsWon(): Outcome -> nat {
    (o: Outcome) => if o.Won? then 1 else 0
  }

  ghost function IsLost(): Outcome -> nat {
    (o: Outcome) => if o.Lost? then 1 else 0
  }

  ghost function IsUndecided(): Outcome -> nat {
    (o: Outcome) => if o.Undecided? then 1 else 0
  }

  /** Units claimed from the optimistic count and not decided yet. */
  ghost function Claimed(): Pc -> nat {
    (pc: Pc) => if pc.ReloadTail? then pc.desired else 0
  }

  /** Units won whose indices have not been taken from the head yet. */
  ghost function ToTake(): Pc -> nat {
    (pc: Pc) => if pc.AddOver? || pc.FetchHead? then pc.actual else 0
  }

  /** Units lost that have not been returned through the overcommit yet. */
  ghost function ToReturn(): Pc -> nat {
    (pc: Pc) => if pc.AddOver? then pc.back else 0
  }

  ghost predicate PcOk(s: State, t: nat)
    requires t < |s.pcs|
  {
    match s.pcs[t]
    case Idle => true
    case LoadTail(max) => max >= 1
    case LoadOver(max, tail) => max >= 1 && tail <= s.tail
    case LoadOpt(max, tail, over) => max >= 1 && tail <= s.tail && over <= s.over
    case FetchOpt(over, desired) => desired >= 1 && over <= s.over
    case ReloadTail(over, my, desired) =>
      && desired >= 1
      && my + desired <= |s.outcome|
      && (forall k :: my <= k < my + desired ==> s.outcome[k] == Undecided(t))
      && over <= Sum(IsLost(), s.outcome[..my])
    case AddOver(back, actual) => back >= 1
    case FetchHead(actual) => actual >= 1
    case Reading(first, count) => count >= 1 && Claim(t, first, count) in s.claims
  }

  /** Whoever won unit k saw, below its ticket, enough lost units to leave an element for it. */
  ghost predicate WinsAreCovered(s: State) {
    forall k :: 0 <= k < |s.outcome| && s.outcome[k] == Won ==> k + 1 <= s.tail + Sum(IsLost(), s.outcome[..k])
  }

  /** Every unit is accounted for, whatever its ticket's thread is doing. */
  ghost predicate Accounts(s: State) {
    && |s.outcome| == s.opt
    && Sum(IsWon(), s.outcome) == s.head + Sum(ToTake(), s.pcs)
    && Sum(IsLost(), s.outcome) == s.over + Sum(ToReturn(), s.pcs)
    && Sum(IsUndecided(), s.outcome) == Sum(Claimed(), s.pcs)
  }

  /** The claims cut [0, head) into consecutive ranges. */
  ghost predicate Consecutive(claims: seq<Claim>, head: nat) {
    if claims == [] then head == 0
    else
      var last := claims[|claims| - 1];
      last.count >= 1 && last.first + last.count == head && Consecutive(claims[..|claims| - 1], last.first)
  }

  ghost predicate Inv(s: State) {
    && Accounts(s)
    && WinsAreCovered(s)
    && Consecutive(s.claims, s.head)
    && forall t :: 0 <= t < |s.pcs| ==> PcOk(s, t)
  }

  ghost predicate Init(s: State) {
    && s.tail == s.head == s.opt == s.over == 0
    && s.outcome == [] && s.claims == []
    && forall t :: 0 <= t < |s.pcs| ==> s.pcs[t] == Idle
  }

  lemma InitInv(s: State)
    requires Init(s)
    ensures Inv(s)
  {
    SumZero(ToTake(), s.pcs);
    SumZero(ToReturn(), s.pcs);
    SumZero(Claimed(), s.pcs);
  }

  // ---------- head never passes tail ----------

  /** Each unit is in exactly one of the three states. */
  lemma {:induction false} OutcomesPartition(outcome: seq<Outcome>)
    ensures Sum(IsWon(), outcome) + Sum(IsLost(), outcome) + Sum(IsUndecided(), outcome) == |outcome|
  {
    if outcome != [] {
      OutcomesPartition(outcome[..|outcome| - 1]);
    }
  }

  /** Looking at the last win: no more units are won than elements were published. */
  lemma {:induction false} WinsAreBounded(outcome: seq<Outcome>, tail: nat)
    requires forall k :: 0 <= k < |outcome| && outcome[k] == Won ==> k + 1 <= tail + Sum(IsLost(), outcome[..k])
    ensures Sum(IsWon(), outcome) <= tail
  {
    if outcome != [] {
      var k := |outcome| - 1;
      if outcome[k] == Won {
        OutcomesPartition(outcome[..k]);
      } else {
        forall j | 0 <= j < k && outcome[..k][j] == Won
          ensures j + 1 <= tail + Sum(IsLost(), outcome[..k][..j])
        {
          assert outcome[..k][..j] == outcome[..j];
        }
        WinsAreBounded(outcome[..k], tail);
      }
    }
  }

  /** The head, and every index still to be taken, stays at or below the tail. */
  lemma HeadNeverPassesTail(s: State)
    requires Inv(s)
    ensures s.head + Sum(ToTake(), s.pcs) <= s.tail
  {
    WinsAreBounded(s.outcome, s.tail);
  }

  /** The optimistic count is the head, the overcommit and the units of dequeues still under way. */
  lemma OptimisticCountAccount(s: State)
    requires Inv(s)
    ensures s.opt == s.head + s.over + Sum(Claimed(), s.pcs) + Sum(ToTake(), s.pcs) + Sum(ToReturn(), s.pcs)
  {
    OutcomesPartition(s.outcome);
  }

  // ---------- one step of one thread ----------

  lemma CountsMove(pcs: seq<Pc>, t: nat, pc: Pc)
    requires t < |pcs|
    ensures Sum(Claimed(), pcs[t := pc]) + Claimed()(pcs[t]) == Sum(Claimed(), pcs) + Claimed()(pc)
    ensures Sum(ToTake(), pcs[t := pc]) + ToTake()(pcs[t]) == Sum(ToTake(), pcs) + ToTake()(pc)
    ensures Sum(ToReturn(), pcs[t := pc]) + ToReturn()(pcs[t]) == Sum(ToReturn(), pcs) + ToReturn()(pc)
  {
    SumUpdate(Claimed(), pcs, t, pc);
    SumUpdate(ToTake(), pcs, t, pc);
    SumUpdate(ToReturn(), pcs, t, pc);
  }

  /** A step that leaves the tickets alone and only lets the counters grow. */
  lemma PlainStep(s: State, s': State, t: nat, pc: Pc)
    requires Inv(s) && t < |s.pcs| && s'.pcs == s.pcs[t := pc]
    requires s'.outcome == s.outcome && s'.opt == s.opt && s'.tail == s.tail
    requires s'.over >= s.over && s.claims <= s'.claims
    requires PcOk(s', t) && !pc.ReloadTail? && !s.pcs[t].ReloadTail?
    requires s'.over + ToReturn()(pc) == s.over + ToReturn()(s.pcs[t])
    requires s'.head + ToTake()(pc) == s.head + ToTake()(s.pcs[t])
    requires Consecutive(s'.claims, s'.head)
    ensures Inv(s')
  {
    CountsMove(s.pcs, t, pc);
    forall u | 0 <= u < |s'.pcs| ensures PcOk(s', u) {
      if u != t {
        assert PcOk(s, u);
        assert s.pcs[u].Reading? ==> Claim(u, s.pcs[u].first, s.pcs[u].count) in s.claims;
      }
    }
  }

  /** What appending undecided units to the history keeps. */
  lemma NewUnits(outcome: seq<Outcome>, t: nat, n: nat)
    ensures var o := outcome + Repeat(Undecided(t), n);
            && Sum(IsWon(), o) == Sum(IsWon(), outcome)
            && Sum(IsLost(), o) == Sum(IsLost(), outcome)
            && Sum(IsUndecided(), o) == Sum(IsUndecided(), outcome) + n
            && forall k :: 0 <= k <= |outcome| ==> o[..k] == outcome[..k]
  {
    var r := Repeat(Undecided(t), n);
    SumSplit(IsWon(), outcome, r);
    SumSplit(IsLost(), outcome, r);
    SumSplit(IsUndecided(), outcome, r);
    SumRepeat(IsWon(), Undecided(t), n);
    SumRepeat(IsLost(), Undecided(t), n);
    SumRepeat(IsUndecided(), Undecided(t), n);
  }

  lemma FetchOptKeepsInv(s: State, t: nat, over: nat, desired: nat)
    requires Inv(s) && t < |s.pcs| && s.pcs[t] == FetchOpt(over, desired)
    ensures Inv(FetchOptStep(s, t, over, desired))
  {
    var s' := FetchOptStep(s, t, over, desired);
    assert PcOk(s, t);
    CountsMove(s.pcs, t, s'.pcs[t]);
    NewUnits(s.outcome, t, desired);
    assert s'.outcome[..s.opt] == s.outcome;
    forall u | 0 <= u < |s'.pcs| ensures PcOk(s', u) {
      if u != t {
        assert PcOk(s, u);
      }
    }
  }

  /** The counts of a ticket's range before and after it is decided. */
  lemma DecideCounts(outcome: seq<Outcome>, t: nat, my: nat, desired: nat, actual: nat)
    requires my + desired <= |outcome| && actual <= desired
    requires forall k :: my <= k < my + desired ==> outcome[k] == Undecided(t)
    ensures var o := Decide(outcome, my, desired, actual);
            && |o| == |outcome|
            && Sum(IsWon(), o) == Sum(IsWon(), outcome) + actual
            && Sum(IsLost(), o) == Sum(IsLost(), outcome) + (desired - actual)
            && Sum(IsUndecided(), o) + desired == Sum(IsUndecided(), outcome)
  {
    var low, high := outcome[..my], outcome[my + desired..];
    assert outcome == low + Repeat(Undecided(t), desired) + high;
    var o := Decide(outcome, my, desired, actual);
    forall f | f in [IsWon(), IsLost(), IsUndecided()]
      ensures Sum(f, o) == Sum(f, low) + Sum(f, Repeat(Won, actual)) + Sum(f, Repeat(Lost, desired - actual)) + Sum(f, high)
      ensures Sum(f, outcome) == Sum(f, low) + Sum(f, Repeat(Undecided(t), desired)) + Sum(f, high)
    {
      SumSplit(f, low + Repeat(Won, actual) + Repeat(Lost, desired - actual), high);
      SumSplit(f, low + Repeat(Won, actual), Repeat(Lost, desired - actual));
      SumSplit(f, low, Repeat(Won, actual));
      SumSplit(f, low + Repeat(Undecided(t), desired), high);
      SumSplit(f, low, Repeat(Undecided(t), desired));
    }
    SumRepeats(t, actual, desired - actual, desired);
  }

  lemma SumRepeats(t: nat, won: nat, lost: nat, undecided: nat)
    ensures Sum(IsWon(), Repeat(Won, won)) == won
    ensures Sum(IsLost(), Repeat(Won, won)) == Sum(IsUndecided(), Repeat(Won, won)) == 0
    ensures Sum(IsLost(), Repeat(Lost, lost)) == lost
    ensures Sum(IsWon(), Repeat(Lost, lost)) == Sum(IsUndecided(), Repeat(Lost, lost)) == 0
    ensures Sum(IsUndecided(), Repeat(Undecided(t), undecided)) == undecided
    ensures Sum(IsWon(), Repeat(Undecided(t), undecided)) == Sum(IsLost(), Repeat(Undecided(t), undecided)) == 0
  {
    SumRepeat(IsWon(), Won, won);
    SumRepeat(IsLost(), Won, won);
    SumRepeat(IsUndecided(), Won, won);
    SumRepeat(IsWon(), Lost, lost);
    SumRepeat(IsLost(), Lost, lost);
    SumRepeat(IsUndecided(), Lost, lost);
    SumRepeat(IsWon(), Undecided(t), undecided);
    SumRepeat(IsLost(), Undecided(t), undecided);
    SumRepeat(IsUndecided(), Undecided(t), undecided);
  }

  /** Deciding a ticket only adds lost units below any unit. */
  lemma {:induction false} LostOnlyGrows(before: seq<Outcome>, after: seq<Outcome>)
    requires |before| == |after|
    requires forall k :: 0 <= k < |before| ==> before[k].Undecided? || after[k] == before[k]
    ensures Sum(IsLost(), before) <= Sum(IsLost(), after)
  {
    if before != [] {
      LostOnlyGrows(before[..|before| - 1], after[..|after| - 1]);
    }
  }

  /** A unit won by this decision leaves an element for itself: its ticket saw fewer lost units than there are. */
  lemma NewWinsAreCovered(s: State, t: nat, over: nat, my: nat, desired: nat, k: nat)
    requires Inv(s) && t < |s.pcs| && s.pcs[t] == ReloadTail(over, my, desired)
    requires my + desired <= |s.outcome|
    requires my <= k < my + Worth(s, over, my, desired)
    ensures k + 1 <= s.tail + Sum(IsLost(), Decide(s.outcome, my, desired, Worth(s, over, my, desired))[..k])
  {
    var o := Decide(s.outcome, my, desired, Worth(s, over, my, desired));
    assert PcOk(s, t);
    assert o[..k][..my] == s.outcome[..my];
    SumPrefix(IsLost(), o[..k], my);
  }

  lemma ReloadTailWins(s: State, t: nat, over: nat, my: nat, desired: nat)
    requires Inv(s) && t < |s.pcs| && s.pcs[t] == ReloadTail(over, my, desired) && my + desired <= |s.outcome|
    ensures WinsAreCovered(ReloadTailStep(s, t, over, my, desired))
  {
    var actual := Worth(s, over, my, desired);
    var o := Decide(s.outcome, my, desired, actual);
    assert PcOk(s, t);
    forall k | 0 <= k < |o| && o[k] == Won ensures k + 1 <= s.tail + Sum(IsLost(), o[..k]) {
      if my <= k < my + actual {
        NewWinsAreCovered(s, t, over, my, desired, k);
      } else {
        assert s.outcome[k] == Won;
        LostOnlyGrows(s.outcome[..k], o[..k]);
      }
    }
  }

  lemma ReloadTailPcs(s: State, t: nat, over: nat, my: nat, desired: nat, u: nat)
    requires Inv(s) && t < |s.pcs| && s.pcs[t] == ReloadTail(over, my, desired) && my + desired <= |s.outcome|
    requires u < |s.pcs|
    ensures PcOk(ReloadTailStep(s, t, over, my, desired), u)
  {
    assert PcOk(s, u) && PcOk(s, t);
    if u != t && s.pcs[u].ReloadTail? {
      var o := ReloadTailStep(s, t, over, my, desired).outcome;
      LostOnlyGrows(s.outcome[..s.pcs[u].my], o[..s.pcs[u].my]);
    }
  }

  lemma ReloadTailKeepsInv(s: State, t: nat, over: nat, my: nat, desired: nat)
    requires Inv(s) && t < |s.pcs| && s.pcs[t] == ReloadTail(over, my, desired)
    ensures my + desired <= |s.outcome| && Inv(ReloadTailStep(s, t, over, my, desired))
  {
    assert PcOk(s, t);
    var s' := ReloadTailStep(s, t, over, my, desired);
    CountsMove(s.pcs, t, s'.pcs[t]);
    DecideCounts(s.outcome, t, my, desired, Worth(s, over, my, desired));
    ReloadTailWins(s, t, over, my, desired);
    forall u | 0 <= u < |s'.pcs| ensures PcOk(s', u) {
      ReloadTailPcs(s, t, over, my, desired, u);
    }
  }

  lemma StepKeepsInv(s: State, t: nat)
    requires Inv(s) && t < |s.pcs| && !s.pcs[t].Idle?
    ensures TicketsIssued(s) && Inv(StepOf(s, t))
  {
    TicketsAreIssued(s);
    assert PcOk(s, t);
    var s', pc := StepOf(s, t), s.pcs[t];
    if pc.FetchOpt? {
      FetchOptKeepsInv(s, t, pc.over, pc.desired);
    } else if pc.ReloadTail? {
      ReloadTailKeepsInv(s, t, pc.over, pc.my, pc.desired);
    } else {
      if pc.FetchHead? {
        assert s'.claims[..|s.claims|] == s.claims;
        assert s'.claims[|s.claims|] == Claim(t, s.head, pc.actual);
      }
      PlainStep(s, s', t, s'.pcs[t]);
    }
  }

  lemma TicketsAreIssued(s: State)
    requires Inv(s)
    ensures TicketsIssued(s)
  {
    forall t | 0 <= t < |s.pcs| && s.pcs[t].ReloadTail? ensures s.pcs[t].my + s.pcs[t].desired <= |s.outcome| {
      assert PcOk(s, t);
    }
  }

  lemma NextKeepsInv(s: State, a: Action)
    requires Inv(s) && Enabled(s, a)
    ensures TicketsIssued(s) && Inv(Next(s, a))
  {
    TicketsAreIssued(s);
    match a {
      case Enqueue(count) =>
        forall u | 0 <= u < |s.pcs| ensures PcOk(Next(s, a), u) {
          assert PcOk(s, u);
        }
      case Dequeue(t, max) =>
        PlainStep(s, Next(s, a), t, LoadTail(max));
      case Step(t) => StepKeepsInv(s, t);
    }
  }

  // ---------- every run ----------

  ghost predicate IsRun(states: seq<State>, actions: seq<Action>) {
    && |states| == |actions| + 1
    && Init(states[0])
    && forall i :: 0 <= i < |actions| ==>
         TicketsIssued(states[i]) && Enabled(states[i], actions[i]) && states[i + 1] == Next(states[i], actions[i])
  }

  lemma {:induction false} RunsKeepInv(states: seq<State>, actions: seq<Action>, i: nat)
    requires IsRun(states, actions) && i < |states|
    ensures Inv(states[i])
  {
    if i == 0 {
      InitInv(states[0]);
    } else {
      RunsKeepInv(states, actions, i - 1);
      NextKeepsInv(states[i - 1], actions[i - 1]);
    }
  }

  /** In every run, head <= tail and the optimistic count is fully accounted for, after every step. */
  lemma TicketSafety(states: seq<State>, actions: seq<Action>, i: nat)
    requires IsRun(states, actions) && i < |states|
    ensures var s := states[i];
            && s.head <= s.tail
            && s.opt == s.head + s.over + Sum(Claimed(), s.pcs) + Sum(ToTake(), s.pcs) + Sum(ToReturn(), s.pcs)
  {
    RunsKeepInv(states, actions, i);
    HeadNeverPassesTail(states[i]);
    OptimisticCountAccount(states[i]);
  }

  /** An index below the head was handed out by exactly one claim. */
  lemma {:induction false} HandedOutOnce(claims: seq<Claim>, head: nat, index: nat)
    requires Consecutive(claims, head)
    ensures index < head <==> exists c :: 0 <= c < |claims| && claims[c].first <= index < claims[c].first + claims[c].count
    ensures forall c, d :: 0 <= c < d < |claims| ==> claims[c].first + claims[c].count <= claims[d].first
    ensures forall c :: 0 <= c < |claims| ==> claims[c].first + claims[c].count <= head
  {
    if claims != [] {
      var n := |claims| - 1;
      HandedOutOnce(claims[..n], claims[n].first, index);
      assert forall c :: 0 <= c < n ==> claims[..n][c] == claims[c];
      if index < claims[n].first {
        var c :| 0 <= c < |claims[..n]| && claims[..n][c].first <= index < claims[..n][c].first + claims[..n][c].count;
        assert claims[c].first <= index < claims[c].first + claims[c].count;
      } else if index < head {
        assert claims[n].first <= index < claims[n].first + claims[n].count;
      }
    }
  }

  /** The ranges two dequeues are reading at the same time do not overlap, and hold published elements. */
  lemma ConcurrentReadsAreDisjoint(s: State, t: nat, u: nat)
    requires Inv(s) && t < |s.pcs| && u < |s.pcs| && t != u
    requires s.pcs[t].Reading? && s.pcs[u].Reading?
    ensures s.pcs[t].first + s.pcs[t].count <= s.tail
    ensures s.pcs[t].first + s.pcs[t].count <= s.pcs[u].first || s.pcs[u].first + s.pcs[u].count <= s.pcs[t].first
  {
    assert PcOk(s, t) && PcOk(s, u);
    HeadNeverPassesTail(s);
    HandedOutOnce(s.claims, s.head, 0);
  }

  /** A range that is being read has been taken from the head. */
  lemma ReadersAreBelowHead(s: State, t: nat)
    requires Inv(s) && t < |s.pcs| && s.pcs[t].Reading?
    ensures s.pcs[t].first + s.pcs[t].count <= s.head
  {
    assert PcOk(s, t);
    HandedOutOnce(s.claims, s.head, 0);
  }

  /** Only one kind of step moves the head, and no step of a consumer moves the tail. */
  lemma PlainSteps(s: State, t: nat)
    requires TicketsIssued(s) && t < |s.pcs| && !s.pcs[t].Idle?
    ensures var s' := StepOf(s, t);
      && s'.tail == s.tail && (!s.pcs[t].FetchHead? ==> s'.head == s.head)
      && |s'.pcs| == |s.pcs| && forall u :: 0 <= u < |s.pcs| && u != t ==> s'.pcs[u] == s.pcs[u]
  {
  }

  // ---------- one dequeue without interference ----------

  /** t runs alone for n steps. */
  ghost function Solo(s: State, t: nat, n: nat): State
    requires Inv(s) && t < |s.pcs|
    decreases n
  {
    if n == 0 || s.pcs[t].Idle? then s
    else
      StepKeepsInv(s, t);
      Solo(StepOf(s, t), t, n - 1)
  }

  /** From the moment it loads the counters, a lone dequeue gets all of `available` that it wants, or nothing. */
  lemma SoloDequeue(s: State, t: nat, max: nat)
    requires Inv(s) && t < |s.pcs| && s.pcs[t].Idle? && max >= 1
    ensures TicketsIssued(s) && Inv(Next(s, Dequeue(t, max)))
    ensures var s', available := Solo(Next(s, Dequeue(t, max)), t, 6), Available(s.tail, s.opt, s.over);
            if available <= 0 then s' == s
            else
              && s'.pcs == s.pcs[t := Reading(s.head, Min(available, max))]
              && s'.claims == s.claims + [Claim(t, s.head, Min(available, max))]
              && s'.head == s.head + Min(available, max) && s'.over == s.over && s'.tail == s.tail
  {
    NextKeepsInv(s, Dequeue(t, max));
    var s1 := Next(s, Dequeue(t, max));
    StepKeepsInv(s1, t);
    var s2 := StepOf(s1, t);
    StepKeepsInv(s2, t);
    var s3 := StepOf(s2, t);
    StepKeepsInv(s3, t);
    var s4 := StepOf(s3, t);
    assert Solo(s1, t, 6) == Solo(s4, t, 3);
    if Available(s.tail, s.opt, s.over) <= 0 {
      assert s4.pcs == s.pcs;
    } else {
      SoloTicket(s4, t);
    }
  }

  lemma SoloTicket(s: State, t: nat)
    requires Inv(s) && t < |s.pcs| && s.pcs[t].FetchOpt?
    requires s.pcs[t].over == s.over && s.pcs[t].desired <= Available(s.tail, s.opt, s.over)
    ensures var s', n := Solo(s, t, 3), s.pcs[t].desired;
            && s'.pcs == s.pcs[t := Reading(s.head, n)]
            && s'.claims == s.claims + [Claim(t, s.head, n)]
            && s'.head == s.head + n && s'.over == s.over && s'.tail == s.tail
  {
    assert PcOk(s, t);
    StepKeepsInv(s, t);
    var s1 := StepOf(s, t);
    StepKeepsInv(s1, t);
    var s2 := StepOf(s1, t);
    assert s2.pcs[t] == FetchHead(s.pcs[t].desired);
    StepKeepsInv(s2, t);
  }

  lemma {:induction false} SoloOneMore(s: State, t: nat, n: nat)
    requires Inv(s) && t < |s.pcs|
    ensures var s' := Solo(s, t, n);
            && Inv(s') && t < |s'.pcs|
            && (if s'.pcs[t].Idle? then Solo(s, t, n + 1) == s' else TicketsIssued(s') && Solo(s, t, n + 1) == StepOf(s', t))
    decreases n
  {
    if !s.pcs[t].Idle? {
      StepKeepsInv(s, t);
      if n > 0 {
        SoloOneMore(StepOf(s, t), t, n - 1);
      } else {
        var s1 := StepOf(s, t);
        assert Solo(s1, t, 0) == s1;
      }
    }
  }

  /** And its call is over in 7 steps. */
  lemma SoloCall(s: State, t: nat, max: nat)
    requires Inv(s) && t < |s.pcs| && s.pcs[t].Idle? && max >= 1
    ensures TicketsIssued(s) && Inv(Next(s, Dequeue(t, max)))
    ensures var s', available := Solo(Next(s, Dequeue(t, max)), t, 7), Available(s.tail, s.opt, s.over);
            if available <= 0 then s' == s
            else
              && s'.pcs == s.pcs && s'.claims == s.claims + [Claim(t, s.head, Min(available, max))]
              && s'.head == s.head + Min(available, max) && s'.over == s.over && s'.tail == s.tail
  {
    SoloDequeue(s, t, max);
    SoloOneMore(Next(s, Dequeue(t, max)), t, 6);
  }

  ghost predicate Quiescent(s: State) {
    forall t :: 0 <= t < |s.pcs| ==> s.pcs[t].Idle?
  }

  /** With no dequeue under way, a dequeue comes back empty-handed exactly when the sub-queue is empty. */
  lemma QuiescentDequeue(s: State, t: nat, max: nat)
    requires Inv(s) && Quiescent(s) && t < |s.pcs| && max >= 1
    ensures s.opt - s.over == s.head
    ensures TicketsIssued(s) && Inv(Next(s, Dequeue(t, max)))
    ensures var s' := Solo(Next(s, Dequeue(t, max)), t, 6);
            && s'.head == s.head + Min(s.tail - s.head, max)
            && (s'.pcs[t].Idle? <==> s.head == s.tail)
            && (s.head < s.tail ==> s'.pcs[t] == Reading(s.head, Min(s.tail - s.head, max)))
  {
    SumZero(ToTake(), s.pcs);
    SumZero(ToReturn(), s.pcs);
    SumZero(Claimed(), s.pcs);
    OptimisticCountAccount(s);
    HeadNeverPassesTail(s);
    SoloDequeue(s, t, max);
  }

  // ---------- progress ----------

  /** The most steps a dequeue has left, with 3 accesses to come for each element it may take, and 3 more to look them up. */
  function StepsLeft(pc: Pc): nat {
    match pc
    case Idle => 0
    case LoadTail(max) => 11 + 3 * max
    case LoadOver(max, _) => 10 + 3 * max
    case LoadOpt(max, _, _) => 9 + 3 * max
    case FetchOpt(_, desired) => 8 + 3 * desired
    case ReloadTail(_, _, desired) => 7 + 3 * desired
    case AddOver(_, actual) => 6 + 3 * actual
    case FetchHead(actual) => 5 + 3 * actual
    case Reading(_, _) => 1
  }

  /** No step of the protocol is ever taken twice. */
  lemma StepsShrink(s: State, t: nat)
    requires TicketsIssued(s) && t < |s.pcs| && !s.pcs[t].Idle?
    ensures |StepOf(s, t).pcs| == |s.pcs| && StepsLeft(StepOf(s, t).pcs[t]) < StepsLeft(s.pcs[t])
    ensures forall u :: 0 <= u < |s.pcs| && u != t ==> StepOf(s, t).pcs[u] == s.pcs[u]
  {
  }

  lemma TakeReads(s: State, t: nat)
    requires TicketsIssued(s) && t < |s.pcs| && s.pcs[t].FetchHead?
    ensures StepOf(s, t).pcs[t] == Reading(s.head, s.pcs[t].actual)
  {
  }
}
