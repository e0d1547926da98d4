/**
 A sub-queue without blocks: the elements are one sequence, and a consumer that has taken a range of indices reads
 them from it, some at a time.

 This is what an implicit and an explicit sub-queue are shown to be (modules ImplicitQueue and ExplicitQueue): the
 tickets are those of module Tickets, `left` is what each consumer has taken and not read yet, and `got` is history,
 the elements read by index.
 */
module SimpleQueue {
  import T = Tickets

  /** The indices from first up to stop. */
  datatype Range = Range(first: nat, stop: nat)

  datatype State<X> = State(tickets: T.State, left: seq<Range>, items: seq<X>, got: map<nat, X>)

  datatype Action<X> =
    | Enqueue(xs: seq<X>)
    | Dequeue(t: nat, max: nat)
    | Ticket(t: nat)               // a step of the ticket protocol
    | Take(t: nat)                 // ... the one that takes indices from the head
    | Read(t: nat, upTo: nat)      // read the rest of the range up to this index; perhaps nothing
    | Return(t: nat)

  const NONE := Range(0, 0)

  function Rest(first: nat, stop: nat): Range {
    if first < stop then Range(first, stop) else NONE
  }

  // ---------- transitions ----------

  ghost predicate Enabled<X>(s: State<X>, a: Action<X>) {
    match a
    case Enqueue(_) => true
    case Dequeue(t, max) => T.Enabled(s.tickets, T.Dequeue(t, max))
    case Ticket(t) => t < |s.tickets.pcs| && !s.tickets.pcs[t].Idle? && !s.tickets.pcs[t].FetchHead? && !s.tickets.pcs[t].Reading?
    case Take(t) => t < |s.tickets.pcs| && s.tickets.pcs[t].FetchHead?
    case Read(t, upTo) => t < |s.left| && s.left[t].first <= upTo <= s.left[t].stop
    case Return(t) => t < |s.tickets.pcs| && t < |s.left| && s.tickets.pcs[t].Reading? && s.left[t] == NONE
  }

  /** The state is one in which the step makes sense. The invariant guarantees it. */
  ghost predicate Ready<X>(s: State<X>, a: Action<X>) {
    && T.TicketsIssued(s.tickets) && |s.tickets.pcs| == |s.left|
    && (a.Read? ==> a.upTo <= |s.items|)
  }

  /** The elements from index `first` up to `upTo`. */
  function Slice<X>(items: seq<X>, first: nat, upTo: nat): map<nat, X>
    requires upTo <= |items|
  {
    map i: nat | first <= i < upTo :: items[i]
  }

  ghost function Next<X>(s: State<X>, a: Action<X>): State<X>
    requires Enabled(s, a) && Ready(s, a)
  {
    match a
    case Enqueue(xs) => s.(tickets := T.Next(s.tickets, T.Enqueue(|xs|)), items := s.items + xs)
    case Dequeue(t, max) => s.(tickets := T.Next(s.tickets, T.Dequeue(t, max)))
    case Ticket(t) => s.(tickets := T.StepOf(s.tickets, t))
    case Take(t) =>
      var head, n := s.tickets.head, s.tickets.pcs[t].actual;
      s.(tickets := T.StepOf(s.tickets, t), left := s.left[t := Rest(head, head + n)])
    case Read(t, upTo) =>
      s.(left := s.left[t := Rest(upTo, s.left[t].stop)], got := s.got + Slice(s.items, s.left[t].first, upTo))
    case Return(t) => s.(tickets := T.StepOf(s.tickets, t))
  }

  // ---------- the invariant ----------

  /** What is left is the end of the range its thread has taken. */
  predicate ThreadOk(pc: T.Pc, left: Range) {
    left == NONE || (left.first < left.stop && pc.Reading? && pc.first <= left.first && left.stop == pc.first + pc.count)
  }

  predicate Pending(r: Range, i: nat) {
    r.first <= i < r.stop
  }

  ghost predicate InHands(left: seq<Range>, i: nat) {
    exists t: nat :: t < |left| && Pending(left[t], i)
  }

  /** An index below the head has been read, rightly, or is still to be read by somebody; no other has been read. */
  ghost predicate IndexOk<X>(head: nat, left: seq<Range>, items: seq<X>, got: map<nat, X>, i: nat) {
    if i in got then i < head && i < |items| && got[i] == items[i] && !InHands(left, i)
    else i < head ==> InHands(left, i)
  }

  ghost predicate Inv<X>(s: State<X>) {
    && T.Inv(s.tickets) && s.tickets.tail == |s.items| && |s.tickets.pcs| == |s.left|
    && (forall t: nat :: t < |s.left| ==> ThreadOk(s.tickets.pcs[t], s.left[t]))
    && (forall i: nat :: IndexOk(s.tickets.head, s.left, s.items, s.got, i))
  }

  ghost predicate Init<X>(s: State<X>) {
    && T.Init(s.tickets) && s.items == [] && s.got == map[] && |s.left| == |s.tickets.pcs|
    && forall t :: 0 <= t < |s.left| ==> s.left[t] == NONE
  }

  lemma InitInv<X>(s: State<X>)
    requires Init(s)
    ensures Inv(s)
  {
    T.InitInv(s.tickets);
  }

  lemma Parts<X>(s: State<X>)
    requires Inv(s)
    ensures T.Inv(s.tickets) && T.TicketsIssued(s.tickets) && |s.tickets.pcs| == |s.left|
    ensures s.tickets.head <= s.tickets.tail == |s.items|
  {
    T.TicketsAreIssued(s.tickets);
    T.HeadNeverPassesTail(s.tickets);
  }

  // ---------- steps keep the invariant ----------

  /** What is still to be read is below the head. */
  lemma LeftIsBelowHead<X>(s: State<X>, t: nat)
    requires Inv(s) && t < |s.left|
    ensures s.left[t].stop <= s.tickets.head <= |s.items|
  {
    Parts(s);
    assert ThreadOk(s.tickets.pcs[t], s.left[t]);
    if s.left[t] != NONE {
      T.ReadersAreBelowHead(s.tickets, t);
    }
  }

  lemma StepIsReady<X>(s: State<X>, a: Action<X>)
    requires Inv(s) && Enabled(s, a)
    ensures Ready(s, a)
  {
    hide T.Inv, IndexOk;
    Parts(s);
    if a.Read? {
      LeftIsBelowHead(s, a.t);
    }
  }

  /** Steps that concern only the tickets of t, which has nothing left to read. */
  lemma TicketsKeepInv<X>(s: State<X>, tickets: T.State, t: nat)
    requires Inv(s) && T.Inv(tickets) && t < |s.left| && s.left[t] == NONE
    requires tickets.head == s.tickets.head && tickets.tail == s.tickets.tail
    requires |tickets.pcs| == |s.tickets.pcs| && forall u :: 0 <= u < |tickets.pcs| && u != t ==> tickets.pcs[u] == s.tickets.pcs[u]
    ensures Inv(s.(tickets := tickets))
  {
    hide T.Inv, IndexOk;
    forall u: nat | u < |s.left| ensures ThreadOk(tickets.pcs[u], s.left[u]) {
      assert ThreadOk(s.tickets.pcs[u], s.left[u]);
    }
  }

  lemma NotReading<X>(s: State<X>, t: nat)
    requires Inv(s) && t < |s.tickets.pcs| && !s.tickets.pcs[t].Reading?
    ensures t < |s.left| && s.left[t] == NONE
  {
    assert ThreadOk(s.tickets.pcs[t], s.left[t]);
  }

  lemma EnqueueKeepsInv<X>(s: State<X>, xs: seq<X>)
    requires Inv(s) && Ready(s, Enqueue(xs))
    ensures Inv(Next(s, Enqueue(xs)))
  {
    hide T.Inv;
    Parts(s);
    T.NextKeepsInv(s.tickets, T.Enqueue(|xs|));
    var s' := Next(s, Enqueue(xs));
    forall i: nat ensures IndexOk(s'.tickets.head, s'.left, s'.items, s'.got, i) {
      assert IndexOk(s.tickets.head, s.left, s.items, s.got, i);
    }
    forall u: nat | u < |s'.left| ensures ThreadOk(s'.tickets.pcs[u], s'.left[u]) {
      assert ThreadOk(s.tickets.pcs[u], s.left[u]);
    }
  }

  /** Only t's range changes: what is pending elsewhere stays so. */
  lemma InHandsMoves(left: seq<Range>, t: nat, r: Range, i: nat)
    requires t < |left|
    ensures InHands(left[t := r], i) <==> Pending(r, i) || exists u: nat :: u < |left| && u != t && Pending(left[u], i)
    ensures InHands(left, i) <==> Pending(left[t], i) || exists u: nat :: u < |left| && u != t && Pending(left[u], i)
  {
    var after := left[t := r];
    if Pending(r, i) {
      assert Pending(after[t], i);
    }
    if u: nat :| u < |left| && u != t && Pending(left[u], i) {
      assert Pending(after[u], i);
    }
  }

  lemma TakeKeepsInv<X>(s: State<X>, t: nat)
    requires Inv(s) && Enabled(s, Take(t)) && Ready(s, Take(t))
    ensures Inv(Next(s, Take(t)))
  {
    hide T.Inv;
    Parts(s);
    NotReading(s, t);
    var s' := Next(s, Take(t));
    T.StepKeepsInv(s.tickets, t);
    forall u: nat | u < |s'.left| ensures ThreadOk(s'.tickets.pcs[u], s'.left[u]) {
      assert ThreadOk(s.tickets.pcs[u], s.left[u]);
    }
    forall i: nat ensures IndexOk(s'.tickets.head, s'.left, s'.items, s'.got, i) {
      assert IndexOk(s.tickets.head, s.left, s.items, s.got, i);
      InHandsMoves(s.left, t, s'.left[t], i);
    }
  }

  /** No index is in the hands of two consumers. */
  lemma LeftIsDisjoint<X>(s: State<X>, t: nat, u: nat, i: nat)
    requires Inv(s) && t < |s.left| && u < |s.left| && Pending(s.left[t], i) && Pending(s.left[u], i)
    ensures t == u
  {
    hide T.Inv, IndexOk;
    assert ThreadOk(s.tickets.pcs[t], s.left[t]) && ThreadOk(s.tickets.pcs[u], s.left[u]);
    if t != u {
      T.ConcurrentReadsAreDisjoint(s.tickets, t, u);
    }
  }

  lemma ReadKeepsInv<X>(s: State<X>, t: nat, upTo: nat)
    requires Inv(s) && Enabled(s, Read(t, upTo)) && Ready(s, Read(t, upTo))
    ensures Inv(Next(s, Read(t, upTo)))
  {
    hide T.Inv;
    var s' := Next(s, Read(t, upTo));
    LeftIsBelowHead(s, t);
    forall u: nat | u < |s'.left| ensures ThreadOk(s'.tickets.pcs[u], s'.left[u]) {
      assert ThreadOk(s.tickets.pcs[u], s.left[u]);
    }
    forall i: nat ensures IndexOk(s'.tickets.head, s'.left, s'.items, s'.got, i) {
      assert IndexOk(s.tickets.head, s.left, s.items, s.got, i);
      InHandsMoves(s.left, t, s'.left[t], i);
      if s.left[t].first <= i < upTo {
        assert Pending(s.left[t], i);
        forall u: nat | u < |s.left| && Pending(s.left[u], i) ensures u == t {
          LeftIsDisjoint(s, t, u, i);
        }
      }
    }
  }

  lemma NextKeepsInv<X>(s: State<X>, a: Action<X>)
    requires Inv(s) && Enabled(s, a)
    ensures Ready(s, a) && Inv(Next(s, a))
  {
    hide Inv, T.Inv, T.StepOf, T.PcOk;
    StepIsReady(s, a);
    Parts(s);
    match a {
      case Enqueue(xs) => EnqueueKeepsInv(s, xs);
      case Take(t) => TakeKeepsInv(s, t);
      case Read(t, upTo) => ReadKeepsInv(s, t, upTo);
      case Dequeue(t, max) =>
        T.NextKeepsInv(s.tickets, T.Dequeue(t, max));
        NotReading(s, t);
        TicketsKeepInv(s, T.Next(s.tickets, T.Dequeue(t, max)), t);
      case Ticket(t) =>
        T.StepKeepsInv(s.tickets, t);
        T.PlainSteps(s.tickets, t);
        NotReading(s, t);
        TicketsKeepInv(s, T.StepOf(s.tickets, t), t);
      case Return(t) =>
        T.StepKeepsInv(s.tickets, t);
        T.PlainSteps(s.tickets, t);
        TicketsKeepInv(s, T.StepOf(s.tickets, t), t);
    }
  }

  // ---------- every run ----------

  ghost predicate IsRun<X>(states: seq<State<X>>, actions: seq<Action<X>>) {
    && |states| == |actions| + 1
    && Init(states[0])
    && forall i :: 0 <= i < |actions| ==>
         Enabled(states[i], actions[i]) && Ready(states[i], actions[i]) && states[i + 1] == Next(states[i], actions[i])
  }

  lemma {:induction false} RunsKeepInv<X>(states: seq<State<X>>, actions: seq<Action<X>>, i: nat)
    requires IsRun(states, actions) && i < |states|
    ensures Inv(states[i])
  {
    hide Inv, Init, Next, Enabled, Ready;
    if i == 0 {
      InitInv(states[0]);
    } else {
      RunsKeepInv(states, actions, i - 1);
      NextKeepsInv(states[i - 1], actions[i - 1]);
    }
  }

  // ---------- what is promised ----------

  /** What is read has not been read before. */
  lemma ReadOnce<X>(s: State<X>, t: nat, upTo: nat, i: nat)
    requires Inv(s) && Enabled(s, Read(t, upTo)) && Ready(s, Read(t, upTo)) && s.left[t].first <= i < upTo
    ensures i !in s.got && i < |s.items| && Next(s, Read(t, upTo)).got[i] == s.items[i]
  {
    assert Pending(s.left[t], i);
    assert IndexOk(s.tickets.head, s.left, s.items, s.got, i);
  }

  /** What has been read stays read, and elements stay what they were. */
  lemma NothingIsReread<X>(s: State<X>, a: Action<X>)
    requires Inv(s) && Enabled(s, a) && Ready(s, a)
    ensures var s' := Next(s, a); s.items <= s'.items && forall i :: i in s.got ==> i in s'.got && s'.got[i] == s.got[i]
  {
    hide T.Inv, T.StepOf;
    forall i | i in s.got ensures i in Next(s, a).got && Next(s, a).got[i] == s.got[i] {
      assert IndexOk(s.tickets.head, s.left, s.items, s.got, i);
    }
  }

  /** In every run, once no dequeue is under way: exactly the elements below the head have been read, each as it was enqueued. */
  lemma ExactlyOnceInOrder<X>(states: seq<State<X>>, actions: seq<Action<X>>, k: nat)
    requires IsRun(states, actions) && k < |states|
    requires forall t :: 0 <= t < |states[k].tickets.pcs| ==> states[k].tickets.pcs[t].Idle?
    ensures states[k].tickets.head <= |states[k].items|
    ensures states[k].got == Slice(states[k].items, 0, states[k].tickets.head)
  {
    hide T.Inv;
    RunsKeepInv(states, actions, k);
    var s := states[k];
    Parts(s);
    forall t: nat | t < |s.left| ensures s.left[t] == NONE {
      NotReading(s, t);
    }
    forall i: nat ensures i in s.got <==> i < s.tickets.head
                  ensures i in s.got ==> s.got[i] == s.items[i] {
      assert IndexOk(s.tickets.head, s.left, s.items, s.got, i);
    }
  }
}
