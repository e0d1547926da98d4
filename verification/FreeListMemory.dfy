/**
 The free list in place: the atomics as one object, updated by one step of one thread
 at a time. Every method is proved to be the corresponding step of the machine in
 module FreeList, whose theorems therefore hold of this memory after any schedule.
 */
module FreeListMemory {
  import opened FreeList

  class Memory {
    var head: Ptr
    const refs: array<Word32>
    const next: array<Ptr>
    const pcs: array<Pc>
    ghost var stage: seq<Stage>
    ghost var list: seq<Node>
    ghost var log: seq<Event>

    ghost function Abs(): State
      reads this, refs, next, pcs
    {
      State(head, refs[..], next[..], pcs[..], stage, list, log)
    }

    constructor (nodes: nat, threads: nat)
      requires threads <= MAX_THREADS
      ensures Init(Abs()) && Inv(Abs())
      ensures refs.Length == nodes && pcs.Length == threads
      ensures fresh(refs) && fresh(next) && fresh(pcs)
    {
      head := Null;
      refs := new Word32[nodes](_ => 0);
      next := new Ptr[nodes](_ => Null);
      pcs := new Pc[threads](_ => Idle);
      stage := seq(nodes, _ => Out);
      list, log := [], [];
      new;
      InitInv(Abs());
    }

    /** `add` is called: the client gives n up. */
    method CallAdd(t: nat, n: Node)
      requires Inv(Abs()) && Enabled(Abs(), Action.CallAdd(t, n))
      modifies this, pcs
      ensures Inv(Abs()) && Abs() == Next(old(Abs()), Action.CallAdd(t, n))
    {
      ghost var s := Abs();
      CallAddKeepsInv(s, t, n);
      pcs[t] := AddFetch(n);
      stage, log := stage[n := Adding], log + [Added(n)];
      assert Abs().pcs == Next(s, Action.CallAdd(t, n)).pcs;
    }

    /** `try_get` is called. */
    method CallGet(t: nat)
      requires Inv(Abs()) && Enabled(Abs(), Action.CallGet(t))
      modifies pcs
      ensures Inv(Abs()) && Abs() == Next(old(Abs()), Action.CallGet(t))
    {
      ghost var s := Abs();
      NextKeepsInv(s, Action.CallGet(t));
      pcs[t] := GetLoad;
      assert Abs().pcs == Next(s, Action.CallGet(t)).pcs;
    }

    /** One atomic step of `add`. */
    method AddStep(t: nat)
      requires Inv(Abs()) && t < pcs.Length && pcs[t].AddFetch?
      modifies this, refs, pcs
      ensures Inv(Abs()) && Abs() == StepOf(old(Abs()), t)
    {
      ghost var s := Abs();
      StepKeepsInv(s, t);
      var n := pcs[t].n;
      var before := refs[n];
      refs[n] := Plus(before, SHOULD_BE_ON_FREELIST);
      if before == 0 {
        pcs[t] := PushLoad(n, ToCaller);
        stage := stage[n := Claimed];
      } else {
        pcs[t] := Idle;
        stage := stage[n := Limbo];
      }
      assert Abs().refs == StepOf(s, t).refs && Abs().pcs == StepOf(s, t).pcs;
    }

    /** One atomic step of `add_knowing_refcount_is_zero`. */
    method PushStep(t: nat)
      requires Inv(Abs()) && t < pcs.Length
      requires pcs[t].PushLoad? || pcs[t].PushNext? || pcs[t].PushRefs? || pcs[t].PushCas? || pcs[t].PushRevert?
      modifies this, refs, next, pcs
      ensures Inv(Abs()) && Abs() == StepOf(old(Abs()), t)
    {
      ghost var s := Abs();
      StepKeepsInv(s, t);
      match pcs[t] {
        case PushLoad(n, ret) =>
          pcs[t] := PushNext(n, head, ret);
        case PushNext(n, h, ret) =>
          next[n] := h;
          pcs[t] := PushRefs(n, h, ret);
        case PushRefs(n, h, ret) =>
          refs[n] := 1;
          pcs[t] := PushCas(n, h, ret);
          stage := stage[n := Raised];
        case PushCas(n, h, ret) =>
          if head == h {
            head := At(n);
            pcs[t] := Resume(ret);
            list, stage := [n] + list, stage[n := Listed];
          } else {
            pcs[t] := PushRevert(n, head, ret);
          }
        case PushRevert(n, h, ret) =>
          var before := refs[n];
          refs[n] := Plus(before, SHOULD_BE_ON_FREELIST - 1);
          if before == 1 {
            pcs[t] := PushNext(n, h, ret);
            stage := stage[n := Claimed];
          } else {
            pcs[t] := Resume(ret);
            stage := stage[n := Limbo];
          }
      }
      assert Abs().refs == StepOf(s, t).refs && Abs().pcs == StepOf(s, t).pcs && Abs().next == StepOf(s, t).next;
    }

    /** One atomic step of `try_get`, up to reading the next pointer. */
    method GetStep(t: nat)
      requires Inv(Abs()) && t < pcs.Length
      requires pcs[t].GetLoad? || pcs[t].GetRefs? || pcs[t].GetCasRef? || pcs[t].GetNext?
      modifies this, refs, pcs
      ensures Inv(Abs()) && Abs() == StepOf(old(Abs()), t)
    {
      ghost var s := Abs();
      StepKeepsInv(s, t);
      match pcs[t] {
        case GetLoad =>
          pcs[t] := LoopPc(head);
        case GetRefs(n) =>
          pcs[t] := if Count(refs[n]) == 0 then GetLoad else GetCasRef(n, refs[n]);
        case GetCasRef(n, word) =>
          if refs[n] == word {
            refs[n] := Plus(word, 1);
            pcs[t] := GetNext(n);
          } else {
            pcs[t] := GetLoad;
          }
        case GetNext(n) =>
          pcs[t] := GetCasHead(n, next[n]);
      }
      assert Abs().refs == StepOf(s, t).refs && Abs().pcs == StepOf(s, t).pcs;
    }

    /** One atomic step of `try_get`, from the CAS of the head on. */
    method GetCasStep(t: nat)
      requires Inv(Abs()) && t < pcs.Length
      requires pcs[t].GetCasHead? || pcs[t].GetSub2? || pcs[t].GetSub1?
      modifies this, refs, pcs
      ensures Inv(Abs()) && Abs() == StepOf(old(Abs()), t)
    {
      hide NodeOk, PcOk, Chain, NoDuplicates, Disciplined;
      ghost var s := Abs();
      StepKeepsInv(s, t);
      match pcs[t] {
        case GetCasHead(n, nx) =>
          if head == At(n) {
            head := nx;
            pcs[t] := GetSub2(n);
            list, stage := if list == [] then [] else list[1..], stage[n := Popped];
          } else {
            pcs[t] := GetSub1(n, head);
          }
        case GetSub2(n) =>
          refs[n] := Plus(refs[n], -2);
          pcs[t] := Idle;
          stage, log := stage[n := Out], log + [Got(n)];
        case GetSub1(n, h) =>
          var before := refs[n];
          refs[n] := Plus(before, -1);
          if before == SHOULD_BE_ON_FREELIST + 1 {
            pcs[t] := PushLoad(n, ToGetLoop(h));
            stage := stage[n := Claimed];
          } else {
            pcs[t] := LoopPc(h);
          }
      }
      assert Abs().refs == StepOf(s, t).refs && Abs().pcs == StepOf(s, t).pcs;
    }

    /** One atomic step of whatever call thread t is in. */
    method Step(t: nat)
      requires Inv(Abs()) && t < pcs.Length && pcs[t] != Idle
      modifies this, refs, next, pcs
      ensures Inv(Abs()) && Abs() == StepOf(old(Abs()), t)
    {
      var pc := pcs[t];
      if pc.AddFetch? {
        AddStep(t);
      } else if pc.GetLoad? || pc.GetRefs? || pc.GetCasRef? || pc.GetNext? {
        GetStep(t);
      } else if pc.GetCasHead? || pc.GetSub2? || pc.GetSub1? {
        GetCasStep(t);
      } else {
        PushStep(t);
      }
    }

    /** Lets thread t run alone until its call ends, whatever the other threads are in the middle of. */
    method Finish(t: nat)
      requires Inv(Abs()) && t < pcs.Length
      modifies this, refs, next, pcs
      ensures Inv(Abs()) && pcs[t] == Idle
      ensures Abs() == Solo(old(Abs()), t, SOLO_STEPS)
    {
      ghost var k := SOLO_STEPS;
      RankBound(Abs(), t);
      while pcs[t] != Idle
        invariant Inv(Abs())
        invariant Rank(Abs(), t) <= k
        invariant Solo(Abs(), t, k) == Solo(old(Abs()), t, SOLO_STEPS)
        decreases k
      {
        SoloRankDecreases(Abs(), t);
        Step(t);
        k := k - 1;
      }
    }
  }

  lemma RankBound(s: State, t: nat)
    requires Inv(s) && t < |s.pcs|
    ensures Rank(s, t) <= SOLO_STEPS
  {
    if !s.pcs[t].Idle? {
      SoloRankDecreases(s, t);
    }
  }
}
