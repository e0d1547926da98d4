/**
 The dequeue protocol on the program's words.

 The step of module Tickets is written again here with the program's own expressions on
 w-bit counters that wrap around. As long as the distances it compares stay below half
 the range, the wrapped step of the images is the image of the unbounded step, so what
 Tickets proves of every run holds of the wrapped counters.
 */
module WrappedTickets {
  import opened Circular
  import T = Tickets

  function ImagePc(pc: T.Pc, w: nat): T.Pc {
    match pc
    case LoadOver(max, tail) => T.LoadOver(max, Wrap(tail, w))
    case LoadOpt(max, tail, over) => T.LoadOpt(max, Wrap(tail, w), Wrap(over, w))
    case FetchOpt(over, desired) => T.FetchOpt(Wrap(over, w), desired)
    case ReloadTail(over, my, desired) => T.ReloadTail(Wrap(over, w), Wrap(my, w), desired)
    case Reading(first, count) => T.Reading(Wrap(first, w), count)
    case _ => pc
  }

  /** What is in memory: the wrapped counters and local variables, without the history. */
  function Image(s: T.State, w: nat): T.State {
    T.State(Wrap(s.tail, w), Wrap(s.head, w), Wrap(s.opt, w), Wrap(s.over, w),
            seq(|s.pcs|, i requires 0 <= i < |s.pcs| => ImagePc(s.pcs[i], w)), [], [])
  }

  /** The distance the program compares with zero: static_cast<size_t>(tail - (opt - over)). */
  function Distance(tail: nat, opt: nat, over: nat, w: nat): nat {
    Wrap(tail - Wrap(opt - over, w), w)
  }

  /** One step, in the program's expressions. */
  function WrappedStep(s: T.State, t: nat, w: nat): T.State
    requires t < |s.pcs| && !s.pcs[t].Idle? && w >= 1
  {
    match s.pcs[t]
    case LoadTail(max) => T.Go(s, t, T.LoadOver(max, s.tail))
    case LoadOver(max, tail) => T.Go(s, t, T.LoadOpt(max, tail, s.over))
    case LoadOpt(max, tail, over) =>
      var desired := Distance(tail, s.opt, over, w);
      if CircularLessThan(0, desired, w) then
        T.Go(s, t, T.FetchOpt(over, if desired < max then desired else max))
      else
        T.Go(s, t, T.Idle)
    case FetchOpt(over, desired) =>
      T.Go(s.(opt := Wrap(s.opt + desired, w)), t, T.ReloadTail(over, s.opt, desired))
    case ReloadTail(over, my, desired) =>
      var available := Distance(s.tail, my, over, w);
      if CircularLessThan(0, available, w) then
        var actual := if desired < available then desired else available;
        if actual < desired then T.Go(s, t, T.AddOver(desired - actual, actual))
        else T.Go(s, t, T.FetchHead(actual))
      else
        T.Go(s, t, T.AddOver(desired, 0))
    case AddOver(back, actual) =>
      T.Go(s.(over := Wrap(s.over + back, w)), t, if actual == 0 then T.Idle else T.FetchHead(actual))
    case FetchHead(actual) =>
      T.Go(s.(head := Wrap(s.head + actual, w)), t, T.Reading(s.head, actual))
    case Reading(_, _) => T.Go(s, t, T.Idle)
  }

  /** The distance the next step of t compares, if it compares one, is below half the range. */
  predicate Near(s: T.State, t: nat, w: nat)
    requires t < |s.pcs| && w >= 1
  {
    match s.pcs[t]
    case LoadOpt(_, tail, over) => 0 - Pow2(w - 1) < T.Available(tail, s.opt, over) < Pow2(w - 1)
    case ReloadTail(over, my, _) => 0 - Pow2(w - 1) < T.Available(s.tail, my, over) < Pow2(w - 1)
    case _ => true
  }

  /** The wrapped distance and its comparison with zero, for a distance below half the range. */
  lemma DistanceRefines(tail: nat, opt: nat, over: nat, w: nat)
    requires w >= 1 && 0 - Pow2(w - 1) < T.Available(tail, opt, over) < Pow2(w - 1)
    ensures var d := Distance(Wrap(tail, w), Wrap(opt, w), Wrap(over, w), w);
            && (CircularLessThan(0, d, w) <==> T.Available(tail, opt, over) > 0)
            && (T.Available(tail, opt, over) > 0 ==> d == T.Available(tail, opt, over))
  {
    var available := T.Available(tail, opt, over);
    WrapDifference(opt, over, w);
    WrapDifference(tail, opt - over, w);
    assert Distance(Wrap(tail, w), Wrap(opt, w), Wrap(over, w), w) == Wrap(available, w);
    WordIsItself(0, w);
    CircularLessThanRefines(0, available, w);
    if available > 0 {
      WordIsItself(available, w);
    }
  }

  /** A single dequeue compares opt - over with tail directly: the same test. */
  lemma SingleTestAgrees(tail: nat, opt: nat, over: nat, w: nat)
    requires w >= 1 && 0 - Pow2(w - 1) < T.Available(tail, opt, over) < Pow2(w - 1)
    ensures CircularLessThan(Wrap(Wrap(opt, w) - Wrap(over, w), w), Wrap(tail, w), w)
            <==> T.Available(tail, opt, over) > 0
  {
    WrapDifference(opt, over, w);
    CircularLessThanRefines(opt - over, tail, w);
  }

  /** The wrapped step of the image is the image of the unbounded step. */
  lemma WrappedStepRefines(s: T.State, t: nat, w: nat)
    requires T.Inv(s) && T.TicketsIssued(s) && t < |s.pcs| && !s.pcs[t].Idle? && w >= 1 && Near(s, t, w)
    ensures Image(T.StepOf(s, t), w) == WrappedStep(Image(s, w), t, w)
  {
    var pc := s.pcs[t];
    assert T.PcOk(s, t);
    assert Image(s, w).pcs[t] == ImagePc(pc, w);
    if pc.LoadOpt? {
      DistanceRefines(pc.tail, s.opt, pc.over, w);
    } else if pc.ReloadTail? {
      DistanceRefines(s.tail, pc.my, pc.over, w);
    } else if pc.FetchOpt? {
      WrapLeft(s.opt, pc.desired, w);
    } else if pc.AddOver? {
      WrapLeft(s.over, pc.back, w);
    } else if pc.FetchHead? {
      WrapLeft(s.head, pc.actual, w);
    }
    assert Image(T.StepOf(s, t), w).pcs == WrappedStep(Image(s, w), t, w).pcs;
  }

  // ---------- whole runs ----------

  /** The program's step for an action; an enqueue adds to the tail's word. */
  function WrappedNext(s: T.State, a: T.Action, w: nat): T.State
    requires T.Enabled(s, a) && w >= 1
  {
    match a
    case Enqueue(count) => s.(tail := Wrap(s.tail + count, w))
    case Dequeue(t, max) => T.Go(s, t, T.LoadTail(max))
    case Step(t) => WrappedStep(s, t, w)
  }

  /** The distances compared in a run stay below half the range. */
  ghost predicate NearRun(states: seq<T.State>, actions: seq<T.Action>, w: nat)
    requires T.IsRun(states, actions) && w >= 1
  {
    forall i :: 0 <= i < |actions| && actions[i].Step? ==> Near(states[i], actions[i].t, w)
  }

  /** The program's run on words, with the same actions, from zero. */
  ghost predicate WrappedRun(words: seq<T.State>, actions: seq<T.Action>, w: nat) {
    && w >= 1 && |words| == |actions| + 1
    && T.Init(words[0])
    && forall i :: 0 <= i < |actions| ==> T.Enabled(words[i], actions[i]) && words[i + 1] == WrappedNext(words[i], actions[i], w)
  }

  lemma WrappedNextRefines(s: T.State, a: T.Action, w: nat)
    requires T.Inv(s) && T.TicketsIssued(s) && T.Enabled(s, a) && w >= 1 && (a.Step? ==> Near(s, a.t, w))
    ensures T.Enabled(Image(s, w), a) && Image(T.Next(s, a), w) == WrappedNext(Image(s, w), a, w)
  {
    hide T.Inv;
    match a {
      case Enqueue(count) => WrapLeft(s.tail, count, w);
      case Dequeue(t, max) => assert Image(T.Next(s, a), w).pcs == WrappedNext(Image(s, w), a, w).pcs;
      case Step(t) => WrappedStepRefines(s, t, w);
    }
  }

  /** The run on words is, state by state, the image of the unbounded run. */
  lemma {:induction false} WrappedRunRefines(states: seq<T.State>, words: seq<T.State>, actions: seq<T.Action>, w: nat, i: nat)
    requires T.IsRun(states, actions) && WrappedRun(words, actions, w) && |words[0].pcs| == |states[0].pcs|
    requires NearRun(states, actions, w) && i < |states|
    ensures words[i] == Image(states[i], w)
  {
    if i == 0 {
      StartRefines(states[0], words[0], w);
    } else {
      WrappedRunRefines(states, words, actions, w, i - 1);
      T.RunsKeepInv(states, actions, i - 1);
      WrappedNextRefines(states[i - 1], actions[i - 1], w);
    }
  }

  lemma StartRefines(s: T.State, words: T.State, w: nat)
    requires T.Init(s) && T.Init(words) && |words.pcs| == |s.pcs| && w >= 1
    ensures words == Image(s, w)
  {
    assert Wrap(0, w) == 0;
    assert words.pcs == Image(s, w).pcs;
  }

  /** So on words too the tail is never passed, and `size_approx` is the number of elements left. */
  lemma WordsAreSafe(states: seq<T.State>, words: seq<T.State>, actions: seq<T.Action>, w: nat, i: nat)
    requires T.IsRun(states, actions) && WrappedRun(words, actions, w) && |words[0].pcs| == |states[0].pcs|
    requires NearRun(states, actions, w) && i < |states| && states[i].tail - states[i].head < Pow2(w - 1)
    ensures Wrap(words[i].tail - words[i].head, w) == states[i].tail - states[i].head
    ensures CircularLessThan(words[i].head, words[i].tail, w) <==> states[i].head < states[i].tail
  {
    WrappedRunRefines(states, words, actions, w, i);
    T.RunsKeepInv(states, actions, i);
    T.HeadNeverPassesTail(states[i]);
    WrapDifference(states[i].tail, states[i].head, w);
    CircularLessThanRefines(states[i].head, states[i].tail, w);
    WordIsItself(states[i].tail - states[i].head, w);
  }

  /** `size_approx` of one sub-queue: the unbounded number of elements, if it is below half the range. */
  lemma SizeApproxRefines(s: T.State, w: nat)
    requires T.Inv(s) && w >= 1 && s.tail - s.head < Pow2(w - 1)
    ensures var head, tail := Wrap(s.head, w), Wrap(s.tail, w);
            (if CircularLessThan(head, tail, w) then Wrap(tail - head, w) else 0) == s.tail - s.head
  {
    T.HeadNeverPassesTail(s);
    CircularLessThanRefines(s.head, s.tail, w);
    WrapDifference(s.tail, s.head, w);
    WordIsItself(s.tail - s.head, w);
  }
}
