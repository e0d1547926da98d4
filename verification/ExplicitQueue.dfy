/**
 An explicit producer's sub-queue as a whole: the ticket protocol and the block storage step together, and what they do
 is what a sub-queue without blocks does.

 `tickets` is the state of module Tickets and `store` that of module ExplicitState, with one thread and one flight for each
 consumer. The fetch_add of the head is a step of both. The producer takes the steps of module ExplicitSteps. `got` is
 history: the element that was read for each index, in the block the consumer looked up.
 */
module ExplicitQueue {
  import opened BlockNumbers
  import T = Tickets
  import Q = SimpleQueue
  import X = ExplicitState
  import P = ExplicitSteps
  import Stages = ExplicitStages
  import E = Emptiness

  datatype State<Y> = State(tickets: T.State, store: X.State<Y>, got: map<nat, Y>)

  datatype Action<Y> =
    | Produce(update: P.Update<Y>)  // a step of the producer's
    | Dequeue(t: nat, max: nat)     // a consumer's call
    | Ticket(t: nat)                // a step of the ticket protocol
    | Take(t: nat)                  // ... the one that takes indices from the head
    | Access(t: nat)                // a step on the blocks
    | Return(t: nat)

  ghost predicate Enabled<Y>(s: State<Y>, a: Action<Y>) {
    match a
    case Produce(update) => P.CanUpdate(s.store, update)
    case Dequeue(t, max) => T.Enabled(s.tickets, T.Dequeue(t, max))
    case Ticket(t) => t < |s.tickets.pcs| && !s.tickets.pcs[t].Idle? && !s.tickets.pcs[t].FetchHead? && !s.tickets.pcs[t].Reading?
    case Take(t) => t < |s.tickets.pcs| && s.tickets.pcs[t].FetchHead?
    case Access(t) => t < |s.store.flights| && !s.store.flights[t].Idle?
    case Return(t) => t < |s.tickets.pcs| && t < |s.store.flights| && s.tickets.pcs[t].Reading? && s.store.flights[t].Idle?
  }

  /** The state is one in which the step makes sense. The invariant guarantees it. */
  ghost predicate Ready<Y>(s: State<Y>, a: Action<Y>) {
    && T.TicketsIssued(s.tickets)
    && match a
       case Produce(update) => Enabled(s, a) && |s.store.items| <= |P.Apply(s.store, update).items|
       case Take(t) =>
         && t < |s.tickets.pcs| && s.tickets.pcs[t].FetchHead?
         && X.CanStep(s.store, t, s.tickets.pcs[t].actual) && s.store.flights[t].Idle?
       case Access(t) => X.CanStep(s.store, t, 0)
       case _ => true
  }

  // ---------- transitions ----------

  /** What a reading consumer takes out of the block it has looked up. */
  ghost function Read<Y>(s: X.State<Y>, t: nat): map<nat, Y>
    requires X.CanStep(s, t, 0)
  {
    var f := s.flights[t];
    if !f.Reading? then map[]
    else
      var b := s.tables[f.j][f.slot].value.block;
      map i: nat | f.index <= i < X.SectionEnd(f.index, f.stop, s.size) && (b, Offset(i, s.size)) in s.cells ::
        s.cells[(b, Offset(i, s.size))]
  }

  ghost function Next<Y>(s: State<Y>, a: Action<Y>): State<Y>
    requires Enabled(s, a) && Ready(s, a)
  {
    match a
    case Produce(update) =>
      var store := P.Apply(s.store, update);
      s.(tickets := T.Next(s.tickets, T.Enqueue(|store.items| - |s.store.items|)), store := store)
    case Dequeue(t, max) => s.(tickets := T.Next(s.tickets, T.Dequeue(t, max)))
    case Ticket(t) => s.(tickets := T.StepOf(s.tickets, t))
    case Take(t) => s.(tickets := T.StepOf(s.tickets, t), store := X.Claim(s.store, t, s.tickets.pcs[t].actual))
    case Access(t) => s.(store := X.StepOf(s.store, t, 0), got := s.got + Read(s.store, t))
    case Return(t) => s.(tickets := T.StepOf(s.tickets, t))
  }

  // ---------- as a sub-queue without blocks ----------

  function Left(f: X.Flight): Q.Range {
    Q.Rest(X.Start(f), X.Stop(f))
  }

  ghost function Abs<Y>(s: State<Y>): Q.State<Y> {
    Q.State(s.tickets, seq(|s.store.flights|, t requires 0 <= t < |s.store.flights| => Left(s.store.flights[t])), s.store.items, s.got)
  }

  /** What a step is there: an access that reads nothing, or a step of the producer that publishes nothing, is an empty one. */
  ghost function AbsAction<Y>(s: State<Y>, a: Action<Y>): Q.Action<Y>
    requires Enabled(s, a) && Ready(s, a)
  {
    match a
    case Produce(update) => Q.Enqueue(if update.PublishItems? then update.xs else [])
    case Dequeue(t, max) => Q.Dequeue(t, max)
    case Ticket(t) => Q.Ticket(t)
    case Take(t) => Q.Take(t)
    case Access(t) =>
      var f := s.store.flights[t];
      Q.Read(t, if f.Reading? then X.SectionEnd(f.index, f.stop, s.store.size) else Left(f).first)
    case Return(t) => Q.Return(t)
  }

  /** An active consumer has taken its range. */
  ghost predicate ThreadOk(pc: T.Pc, f: X.Flight) {
    f.Idle? || pc.Reading?
  }

  ghost predicate Inv<Y>(s: State<Y>) {
    && X.Inv(s.store) && Q.Inv(Abs(s))
    && s.tickets.head == s.store.head
    && forall t: nat :: t < |s.store.flights| && t < |s.tickets.pcs| ==> ThreadOk(s.tickets.pcs[t], s.store.flights[t])
  }

  lemma Parts<Y>(s: State<Y>)
    requires Inv(s)
    ensures T.Inv(s.tickets) && T.TicketsIssued(s.tickets) && X.Inv(s.store) && Q.Inv(Abs(s))
    ensures s.tickets.head == s.store.head <= s.tickets.tail == |s.store.items| && |s.tickets.pcs| == |s.store.flights|
  {
    hide X.Inv;
    Q.Parts(Abs(s));
  }

  /** A won ticket is for elements that are there: the head may move over them. */
  lemma TakeIsAllowed<Y>(s: State<Y>, t: nat)
    requires Inv(s) && Enabled(s, Take(t))
    ensures X.CanStep(s.store, t, s.tickets.pcs[t].actual) && s.store.flights[t].Idle?
  {
    hide X.Inv;
    Parts(s);
    X.SizeOfInv(s.store);
    T.StepKeepsInv(s.tickets, t);
    T.HeadNeverPassesTail(T.StepOf(s.tickets, t));
    assert T.PcOk(s.tickets, t);
    assert ThreadOk(s.tickets.pcs[t], s.store.flights[t]);
  }

  lemma StepIsReady<Y>(s: State<Y>, a: Action<Y>)
    requires Inv(s) && Enabled(s, a)
    ensures Ready(s, a)
  {
    hide X.Inv, Q.Inv, T.Inv, X.CanStep, P.CanUpdate, P.Apply;
    Parts(s);
    match a {
      case Take(t) => TakeIsAllowed(s, t);
      case Access(t) => X.NeverStuck(s.store, t, 0);
      case Produce(update) => P.UpdateIsByProducer(s.store, update);
      case _ =>
    }
  }

  // ---------- accesses ----------

  /** Flight f becomes g: only reading shortens what is left, by the section [f.index, end). */
  ghost predicate Shortened(f: X.Flight, g: X.Flight, end: nat) {
    Left(g) == if f.Reading? then Q.Rest(end, f.stop) else Left(f)
  }

  /** What an access of t does to the flights, and that it leaves the head and the elements alone. */
  ghost predicate Accessed<Y>(s: X.State<Y>, s': X.State<Y>, t: nat) {
    && t < |s.flights| == |s'.flights| && s.size > 0 && s'.size == s.size
    && s'.flights == s.flights[t := s'.flights[t]] && s'.head == s.head && s'.items == s.items
    && (s.flights[t].Reading? ==> s.flights[t].index < s.flights[t].stop)
    && Shortened(s.flights[t], s'.flights[t],
                 if s.flights[t].Reading? then X.SectionEnd(s.flights[t].index, s.flights[t].stop, s.size) else 0)
  }

  lemma FinishAccesses<Y>(s: X.State<Y>, t: nat)
    requires X.CanStep(s, t, 0) && s.flights[t].Reading?
    ensures Accessed(s, X.Finish(s, t), t)
  {
    hide X.SectionEnd;
    X.SectionBounds(s.flights[t].index, s.flights[t].stop, s.size);
  }

  lemma LoadsAccess<Y>(s: X.State<Y>, t: nat)
    requires X.CanStep(s, t, 0) && !s.flights[t].Reading? && !s.flights[t].Idle?
    ensures Accessed(s, X.StepOf(s, t, 0), t)
  {
  }

  lemma AccessMoves<Y>(s: X.State<Y>, t: nat)
    requires X.Inv(s) && X.CanStep(s, t, 0) && !s.flights[t].Idle?
    ensures Accessed(s, X.StepOf(s, t, 0), t)
  {
    hide X.Inv, X.Finish, Accessed;
    if s.flights[t].Reading? {
      FinishAccesses(s, t);
    } else {
      LoadsAccess(s, t);
    }
  }

  /** What is read is what was enqueued, for all of the section. */
  lemma ReadIsItems<Y>(s: X.State<Y>, t: nat, i: nat)
    requires X.Inv(s) && X.CanStep(s, t, 0)
    ensures i in Read(s, t) <==>
              s.flights[t].Reading? && s.flights[t].index <= i < X.SectionEnd(s.flights[t].index, s.flights[t].stop, s.size)
    ensures i in Read(s, t) ==> i < |s.items| && Read(s, t)[i] == s.items[i]
  {
    var f := s.flights[t];
    if f.Reading? && f.index <= i < X.SectionEnd(f.index, f.stop, s.size) {
      X.ReaderGetsItem(s, t, i);
    }
  }

  // ---------- the refinement ----------

  lemma AccessRefines<Y>(s: State<Y>, t: nat)
    requires Inv(s) && Enabled(s, Access(t)) && Ready(s, Access(t))
    ensures var a := AbsAction(s, Access(t));
      Q.Enabled(Abs(s), a) && Q.Ready(Abs(s), a) && Abs(Next(s, Access(t))) == Q.Next(Abs(s), a)
  {
    hide X.Inv, Q.Inv, T.Inv, X.StepOf, X.CanStep, Read;
    Parts(s);
    AccessMoves(s.store, t);
    var f, s', a := s.store.flights[t], Next(s, Access(t)), AbsAction(s, Access(t));
    if f.Reading? {
      X.SectionBounds(f.index, f.stop, s.store.size);
    }
    assert Q.Enabled(Abs(s), a);
    Q.StepIsReady(Abs(s), a);
    var got := Q.Slice(s.store.items, Left(f).first, a.upTo);
    assert Read(s.store, t) == got by {
      forall i: nat ensures i in Read(s.store, t) <==> i in got
                    ensures i in Read(s.store, t) ==> i < |s.store.items| && Read(s.store, t)[i] == s.store.items[i] {
        ReadIsItems(s.store, t, i);
      }
    }
    assert Abs(s').left == Q.Next(Abs(s), a).left;
  }

  lemma TakeRefines<Y>(s: State<Y>, t: nat)
    requires Inv(s) && Enabled(s, Take(t)) && Ready(s, Take(t))
    ensures Q.Enabled(Abs(s), Q.Take(t)) && Q.Ready(Abs(s), Q.Take(t)) && Abs(Next(s, Take(t))) == Q.Next(Abs(s), Q.Take(t))
  {
    hide X.Inv, Q.Inv, T.Inv;
    Parts(s);
    assert Abs(Next(s, Take(t))).left == Q.Next(Abs(s), Q.Take(t)).left;
  }

  /** Every step is one of a sub-queue without blocks, from the state this one stands for to the state the next one stands for. */
  lemma StepRefines<Y>(s: State<Y>, a: Action<Y>)
    requires Inv(s) && Enabled(s, a) && Ready(s, a)
    ensures var b := AbsAction(s, a); Q.Enabled(Abs(s), b) && Q.Ready(Abs(s), b) && Abs(Next(s, a)) == Q.Next(Abs(s), b)
  {
    hide X.Inv, Q.Inv, T.Inv, T.StepOf, X.StepOf, X.CanStep, P.CanUpdate, P.Apply, Read;
    Parts(s);
    match a {
      case Take(t) => TakeRefines(s, t);
      case Access(t) => AccessRefines(s, t);
      case Produce(update) =>
        P.UpdateIsByProducer(s.store, update);
        assert Abs(Next(s, a)).left == Abs(s).left;
      case _ =>
        assert Abs(Next(s, a)).left == Abs(s).left;
    }
  }

  lemma StoreKeepsInv<Y>(s: State<Y>, a: Action<Y>)
    requires Inv(s) && Enabled(s, a) && Ready(s, a)
    ensures X.Inv(Next(s, a).store) && Next(s, a).tickets.head == Next(s, a).store.head
  {
    hide X.Inv, Q.Inv, T.Inv, X.StepOf, X.CanStep, P.CanUpdate, P.Apply, Read;
    Parts(s);
    match a {
      case Produce(update) =>
        P.UpdateKeepsInv(s.store, update);
        P.UpdateIsByProducer(s.store, update);
      case Take(t) =>
        X.ClaimKeepsInv(s.store, t, s.tickets.pcs[t].actual);
      case Access(t) =>
        X.StepKeepsInv(s.store, t, 0);
        AccessMoves(s.store, t);
      case Ticket(t) => T.PlainSteps(s.tickets, t);
      case Return(t) => T.PlainSteps(s.tickets, t);
      case _ =>
    }
  }

  lemma ThreadsKeepOk<Y>(s: State<Y>, a: Action<Y>, u: nat)
    requires Inv(s) && Enabled(s, a) && Ready(s, a) && u < |Next(s, a).store.flights| && u < |Next(s, a).tickets.pcs|
    ensures ThreadOk(Next(s, a).tickets.pcs[u], Next(s, a).store.flights[u])
  {
    hide X.Inv, Q.Inv, T.Inv, X.StepOf, X.CanStep, P.CanUpdate, P.Apply, Read;
    Parts(s);
    match a {
      case Produce(update) => P.UpdateIsByProducer(s.store, update);
      case Access(t) => AccessMoves(s.store, t);
      case _ =>
    }
    assert u < |s.store.flights| && u < |s.tickets.pcs|;
    assert ThreadOk(s.tickets.pcs[u], s.store.flights[u]);
  }

  lemma NextKeepsInv<Y>(s: State<Y>, a: Action<Y>)
    requires Inv(s) && Enabled(s, a)
    ensures Ready(s, a) && Inv(Next(s, a))
  {
    hide X.Inv, Q.Inv, T.Inv, Next, Enabled, Ready, Q.Next, ThreadOk;
    StepIsReady(s, a);
    StepRefines(s, a);
    Q.NextKeepsInv(Abs(s), AbsAction(s, a));
    StoreKeepsInv(s, a);
    forall u: nat | u < |Next(s, a).store.flights| && u < |Next(s, a).tickets.pcs|
      ensures ThreadOk(Next(s, a).tickets.pcs[u], Next(s, a).store.flights[u])
    {
      ThreadsKeepOk(s, a, u);
    }
  }

  // ---------- every run ----------

  /** A new producer and idle consumers. */
  ghost predicate Init<Y>(s: State<Y>) {
    && T.Init(s.tickets) && s.got == map[]
    && exists size: nat :: size > 0 && s.store == Stages.Initial<Y>(size, |s.tickets.pcs|)
  }

  lemma InitInv<Y>(s: State<Y>)
    requires Init(s)
    ensures Inv(s) && Q.Init(Abs(s))
  {
    hide X.Inv, T.Init;
    var size: nat :| size > 0 && s.store == Stages.Initial<Y>(size, |s.tickets.pcs|);
    Stages.InitialIsSettled<Y>(size, |s.tickets.pcs|);
    TicketsStart(s.tickets);
    assert Q.Init(Abs(s));
    Q.InitInv(Abs(s));
  }

  lemma TicketsStart(s: T.State)
    requires T.Init(s)
    ensures s.head == s.tail == 0
  {
  }

  /** A run: any consumers, any interleaving with the producer's steps. */
  ghost predicate IsRun<Y>(states: seq<State<Y>>, actions: seq<Action<Y>>) {
    && |states| == |actions| + 1
    && Init(states[0])
    && forall i :: 0 <= i < |actions| ==>
         Enabled(states[i], actions[i]) && Ready(states[i], actions[i]) && states[i + 1] == Next(states[i], actions[i])
  }

  lemma {:induction false} RunsKeepInv<Y>(states: seq<State<Y>>, actions: seq<Action<Y>>, i: nat)
    requires IsRun(states, actions) && i < |states|
    ensures Inv(states[i])
  {
    hide Inv, Init, Next, Enabled, Ready;
    if i == 0 {
      InitInv(states[0]);
    } else {
      RunsKeepInv(states, actions, i - 1);
      NextKeepsInv(states[i - 1], actions[i - 1]);
    }
  }

  /** What a run is without blocks. */
  ghost function AbsStates<Y>(states: seq<State<Y>>): seq<Q.State<Y>> {
    seq(|states|, i requires 0 <= i < |states| => Abs(states[i]))
  }

  /** Every run is, without its blocks, a run of SimpleQueue. */
  lemma RunsRefine<Y>(states: seq<State<Y>>, actions: seq<Action<Y>>) returns (simple: seq<Q.Action<Y>>)
    requires IsRun(states, actions)
    ensures Q.IsRun(AbsStates(states), simple)
  {
    hide Inv, Init, Next, Enabled, Ready, Q.Init, Q.Enabled, Q.Ready, Q.Next, Abs, AbsAction;
    InitInv(states[0]);
    simple := seq(|actions|, i requires 0 <= i < |actions| => AbsAction(states[i], actions[i]));
    forall i | 0 <= i < |actions|
      ensures Q.Enabled(Abs(states[i]), simple[i]) && Q.Ready(Abs(states[i]), simple[i])
      ensures Abs(states[i + 1]) == Q.Next(Abs(states[i]), simple[i])
    {
      RunsKeepInv(states, actions, i);
      StepRefines(states[i], actions[i]);
    }
  }

  // ---------- what is promised ----------

  /** A consumer's read takes element i for index i, which nobody has read before. */
  lemma ReadOnce<Y>(s: State<Y>, t: nat, i: nat)
    requires Inv(s) && Enabled(s, Access(t)) && Ready(s, Access(t)) && i in Read(s.store, t)
    ensures i !in s.got && i < |s.store.items| && Next(s, Access(t)).got[i] == s.store.items[i]
  {
    hide X.Inv, Q.Inv, T.Inv, X.StepOf, X.CanStep;
    Parts(s);
    ReadIsItems(s.store, t, i);
    AccessMoves(s.store, t);
    AccessRefines(s, t);
    Q.ReadOnce(Abs(s), t, AbsAction(s, Access(t)).upTo, i);
  }

  /** In every run, once no dequeue is under way: exactly the elements below the head have been read, each as it was enqueued. */
  lemma ExactlyOnceInOrder<Y>(states: seq<State<Y>>, actions: seq<Action<Y>>, k: nat)
    requires IsRun(states, actions) && k < |states|
    requires forall t :: 0 <= t < |states[k].tickets.pcs| ==> states[k].tickets.pcs[t].Idle?
    ensures states[k].tickets.head <= |states[k].store.items|
    ensures states[k].got == Q.Slice(states[k].store.items, 0, states[k].tickets.head)
  {
    hide IsRun, Q.IsRun;
    var simple := RunsRefine(states, actions);
    Q.ExactlyOnceInOrder(AbsStates(states), simple, k);
  }

  // ---------- the blocks' counters ----------

  /** What is counted of a block is how many of its elements have been read. */
  ghost predicate Counted<Y>(s: State<Y>) {
    forall k: nat :: k < |s.store.done| ==> s.store.done[k] == |E.Emptied(s.got, k, s.store.size)|
  }

  lemma UpdateCounts<Y>(s: X.State<Y>, u: P.Update<Y>)
    requires P.CanUpdate(s, u)
    ensures s.done <= P.Apply(s, u).done && forall k: nat :: |s.done| <= k < |P.Apply(s, u).done| ==> P.Apply(s, u).done[k] == 0
  {
  }

  lemma ReadCounts<Y>(s: X.State<Y>, t: nat)
    requires X.CanStep(s, t, 0) && !s.flights[t].Idle?
    ensures var s' := X.StepOf(s, t, 0);
      if s.flights[t].Reading? then
        var f := s.flights[t];
        var k, end := Number(f.index, s.size), X.SectionEnd(f.index, f.stop, s.size);
        && k < |s.done| && f.index < end && s'.done == s.done[k := s.done[k] + (end - f.index)]
      else s'.done == s.done
  {
    if s.flights[t].Reading? {
      X.SectionBounds(s.flights[t].index, s.flights[t].stop, s.size);
    }
  }

  lemma NextKeepsCounted<Y>(s: State<Y>, a: Action<Y>)
    requires Inv(s) && Counted(s) && Enabled(s, a) && Ready(s, a)
    ensures Counted(Next(s, a))
  {
    hide X.Inv, Q.Inv, T.Inv, X.StepOf, X.CanStep, P.CanUpdate, P.Apply, Read, E.Emptied;
    Parts(s);
    var s' := Next(s, a);
    match a {
      case Produce(update) =>
        UpdateCounts(s.store, update);
        P.UpdateIsByProducer(s.store, update);
        forall k: nat | k < |s'.store.done| ensures s'.store.done[k] == |E.Emptied(s'.got, k, s'.store.size)| {
          if k >= |s.store.done| {
            NotReadYet(s, k);
          }
        }
      case Access(t) => AccessKeepsCounted(s, t);
      case _ =>
    }
  }

  /** A block that is not published has not been read from. */
  lemma NotReadYet<Y>(s: State<Y>, k: nat)
    requires Inv(s) && k >= |s.store.done|
    ensures E.Emptied(s.got, k, s.store.size) == {}
  {
    hide X.Inv, T.Inv;
    X.DoneIsPublished(s.store);
    X.SizeOfInv(s.store);
    BlocksBounds(s.store.head, s.store.size);
    if |s.store.done| < k {
      BaseMonotone(|s.store.done|, k, s.store.size);
    }
    if Blocks(s.store.head, s.store.size) < |s.store.done| {
      BaseMonotone(Blocks(s.store.head, s.store.size), |s.store.done|, s.store.size);
    }
    forall i | i in s.got ensures i < s.store.head {
      assert Q.IndexOk(Abs(s).tickets.head, Abs(s).left, Abs(s).items, Abs(s).got, i);
    }
    E.NothingEmptied(s.got, s.store.head, k, s.store.size);
  }

  lemma AccessKeepsCounted<Y>(s: State<Y>, t: nat)
    requires Inv(s) && Counted(s) && Enabled(s, Access(t)) && Ready(s, Access(t))
    ensures Counted(Next(s, Access(t)))
  {
    hide X.Inv, Q.Inv, T.Inv, X.StepOf, X.CanStep, Read, E.Emptied;
    Parts(s);
    ReadCounts(s.store, t);
    AccessMoves(s.store, t);
    var f, s', read := s.store.flights[t], Next(s, Access(t)), Read(s.store, t);
    forall i: nat ensures i in read <==> f.Reading? && f.index <= i < X.SectionEnd(f.index, f.stop, s.store.size)
                  ensures i in read ==> i !in s.got {
      ReadIsItems(s.store, t, i);
      if i in read {
        ReadOnce(s, t, i);
      }
    }
    if f.Reading? {
      X.SectionBounds(f.index, f.stop, s.store.size);
      forall k: nat | k < |s'.store.done| ensures s'.store.done[k] == |E.Emptied(s'.got, k, s'.store.size)| {
        E.EmptiedGrows(s.got, read, f.index, X.SectionEnd(f.index, f.stop, s.store.size), Number(f.index, s.store.size), k, s.store.size);
      }
    } else {
      assert s'.got == s.got;
    }
  }

  lemma {:induction false} RunsCount<Y>(states: seq<State<Y>>, actions: seq<Action<Y>>, i: nat)
    requires IsRun(states, actions) && i < |states|
    ensures Counted(states[i])
  {
    hide Inv, Init, Next, Enabled, Ready, Counted;
    if i == 0 {
      StartIsCounted(states[0]);
    } else {
      RunsCount(states, actions, i - 1);
      RunsKeepInv(states, actions, i - 1);
      NextKeepsCounted(states[i - 1], actions[i - 1]);
    }
  }

  lemma StartIsCounted<Y>(s: State<Y>)
    requires Init(s)
    ensures Counted(s)
  {
  }

  /** In every run a published block of the ring looks empty exactly when every one of its elements has been read. */
  lemma EmptyWhenAllRead<Y>(states: seq<State<Y>>, actions: seq<Action<Y>>, i: nat, k: nat)
    requires IsRun(states, actions) && i < |states|
    requires var s := states[i].store; X.Oldest(s) <= k < s.published
    ensures var s := states[i].store;
      && k < |s.blocks| && s.blocks[k] in s.counter && s.counter[s.blocks[k]] <= s.size
      && (s.counter[s.blocks[k]] == s.size <==> E.Emptied(states[i].got, k, s.size) == E.Offsets(0, s.size))
  {
    hide IsRun;
    RunsKeepInv(states, actions, i);
    RunsCount(states, actions, i);
    var s := states[i].store;
    X.CounterIsDone(s, k);
    E.AllByCount(E.Emptied(states[i].got, k, s.size), s.size);
  }

  // ---------- progress ----------

  /** The most steps that t's call has left. */
  ghost function StepsLeft<Y>(s: State<Y>, t: nat): nat
    requires t < |s.tickets.pcs| && t < |s.store.flights| && X.Start(s.store.flights[t]) <= X.Stop(s.store.flights[t])
  {
    T.StepsLeft(s.tickets.pcs[t]) + X.AccessesLeft(s.store.flights[t])
  }

  lemma FlightRange<Y>(s: State<Y>, t: nat)
    requires Inv(s) && t < |s.tickets.pcs|
    ensures t < |s.store.flights| && X.Start(s.store.flights[t]) <= X.Stop(s.store.flights[t])
  {
    hide X.Inv, Q.Inv, T.Inv;
    Parts(s);
    X.FlightRange(s.store, t);
  }

  /** Steps of t within its call. */
  predicate IsOwn<Y>(a: Action<Y>, t: nat) {
    (a.Ticket? || a.Take? || a.Access? || a.Return?) && a.t == t
  }

  /** As long as t has a call in progress, it can take a step of it, whatever the others do. */
  lemma CanGoOn<Y>(s: State<Y>, t: nat) returns (a: Action<Y>)
    requires Inv(s) && t < |s.tickets.pcs| && !s.tickets.pcs[t].Idle?
    ensures IsOwn(a, t) && Enabled(s, a) && Ready(s, a)
  {
    hide X.Inv, Q.Inv, T.Inv, Ready;
    Parts(s);
    a := if !s.store.flights[t].Idle? then Access(t) else if s.tickets.pcs[t].FetchHead? then Take(t)
         else if s.tickets.pcs[t].Reading? then Return(t) else Ticket(t);
    StepIsReady(s, a);
  }

  /** Its own steps, and no others, bring the call nearer to its end. */
  ghost predicate Counts<Y>(s: State<Y>, a: Action<Y>, s': State<Y>, t: nat) {
    && t < |s.tickets.pcs| == |s'.tickets.pcs| && t < |s.store.flights| == |s'.store.flights|
    && X.Start(s.store.flights[t]) <= X.Stop(s.store.flights[t]) && X.Start(s'.store.flights[t]) <= X.Stop(s'.store.flights[t])
    && (if IsOwn(a, t) then StepsLeft(s', t) < StepsLeft(s, t)
        else (a.Dequeue? && a.t == t) || StepsLeft(s', t) == StepsLeft(s, t))
  }

  lemma OwnStepCounts<Y>(s: State<Y>, a: Action<Y>, t: nat)
    requires Inv(s) && t < |s.tickets.pcs| && Enabled(s, a) && Ready(s, a) && (a.Ticket? || a.Take? || a.Access? || a.Return?)
    ensures Counts(s, a, Next(s, a), t)
  {
    hide X.Inv, Q.Inv, T.Inv, T.StepOf, X.StepOf, X.CanStep, Read;
    Parts(s);
    FlightRange(s, t);
    if a.Access? {
      AccessMoves(s.store, a.t);
      X.AccessesShrink(s.store, a.t);
    } else {
      T.StepsShrink(s.tickets, a.t);
      if a.Take? {
        T.TakeReads(s.tickets, a.t);
      }
    }
  }

  lemma StepCounts<Y>(s: State<Y>, a: Action<Y>, t: nat)
    requires Inv(s) && t < |s.tickets.pcs| && Enabled(s, a) && Ready(s, a)
    ensures Counts(s, a, Next(s, a), t)
  {
    hide X.Inv, Q.Inv, T.Inv, P.CanUpdate, P.Apply;
    match a {
      case Produce(update) =>
        Parts(s);
        FlightRange(s, t);
        P.UpdateIsByProducer(s.store, update);
      case Dequeue(u, max) =>
        Parts(s);
        FlightRange(s, t);
      case _ => OwnStepCounts(s, a, t);
    }
  }

  /** How many of the actions are t's own steps. */
  ghost function Own<Y>(actions: seq<Action<Y>>, t: nat): nat {
    if actions == [] then 0 else Own(actions[..|actions| - 1], t) + if IsOwn(actions[|actions| - 1], t) then 1 else 0
  }

  /** From state i to state j of a run t begins no call. */
  ghost predicate OneCall<Y>(actions: seq<Action<Y>>, t: nat, i: nat, j: nat) {
    i <= j <= |actions| && forall k :: i <= k < j ==> !(actions[k].Dequeue? && actions[k].t == t)
  }

  lemma {:induction false} OwnStepsBound<Y>(states: seq<State<Y>>, actions: seq<Action<Y>>, t: nat, i: nat, j: nat)
    requires IsRun(states, actions) && OneCall(actions, t, i, j) && t < |states[i].tickets.pcs|
    ensures Inv(states[i]) && Inv(states[j]) && |states[j].tickets.pcs| == |states[i].tickets.pcs|
    ensures t < |states[i].store.flights| && X.Start(states[i].store.flights[t]) <= X.Stop(states[i].store.flights[t])
    ensures t < |states[j].store.flights| && X.Start(states[j].store.flights[t]) <= X.Stop(states[j].store.flights[t])
    ensures Own(actions[i..j], t) + StepsLeft(states[j], t) <= StepsLeft(states[i], t)
    decreases j
  {
    hide Inv, Init, Next, Enabled, Ready, StepsLeft, IsOwn;
    RunsKeepInv(states, actions, i);
    if i == j {
      FlightRange(states[i], t);
    } else {
      OwnStepsBound(states, actions, t, i, j - 1);
      StepCounts(states[j - 1], actions[j - 1], t);
      RunsKeepInv(states, actions, j);
      assert actions[i..j][..j - i - 1] == actions[i..j - 1];
    }
  }

  /**
   A dequeue is wait-free: in every run, whatever the producer and the other consumers do, a call for at most max elements
   takes at most 11 + 3 * max steps of its own, and until it is over it can always take the next one.
   */
  lemma DequeueIsWaitFree<Y>(states: seq<State<Y>>, actions: seq<Action<Y>>, t: nat, max: nat, i: nat, j: nat)
    requires IsRun(states, actions) && i < |actions| && actions[i] == Dequeue(t, max) && OneCall(actions, t, i + 1, j)
    ensures Own(actions[i + 1..j], t) <= 11 + 3 * max && t < |states[j].tickets.pcs|
    ensures !states[j].tickets.pcs[t].Idle? ==>
              Own(actions[i + 1..j], t) < 11 + 3 * max && exists a :: IsOwn(a, t) && Enabled(states[j], a) && Ready(states[j], a)
  {
    hide Inv, Init, Ready, Next, Own;
    RunsKeepInv(states, actions, i);
    DequeueBegins(states[i], t, max);
    assert states[i + 1] == Next(states[i], actions[i]);
    OwnStepsBound(states, actions, t, i + 1, j);
    if !states[j].tickets.pcs[t].Idle? {
      var a := CanGoOn(states[j], t);
    }
  }

  lemma DequeueBegins<Y>(s: State<Y>, t: nat, max: nat)
    requires Inv(s) && Enabled(s, Dequeue(t, max)) && Ready(s, Dequeue(t, max))
    ensures var s' := Next(s, Dequeue(t, max));
      && t < |s'.tickets.pcs| && t < |s'.store.flights| && X.Start(s'.store.flights[t]) <= X.Stop(s'.store.flights[t])
      && StepsLeft(s', t) == 11 + 3 * max
  {
    hide X.Inv, Q.Inv, T.Inv;
    Parts(s);
    assert ThreadOk(s.tickets.pcs[t], s.store.flights[t]);
  }
}
