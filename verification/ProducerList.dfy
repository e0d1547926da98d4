/**
 Dequeuing from the list of producers, with and without a consumer token.

 Producers are numbered in the order of their creation; the list goes from the newest,
 at its tail, to number 0. A sub-queue is the ticket machine of module Tickets with its elements;
 a dequeue of one takes that machine's steps, and unless it is `quiet` the producers and the
 other consumers take steps in between.
 */
module ProducerList {
  import opened Remainders
  import opened Sums
  import T = Tickets

  datatype Option<T> = None | Some(value: T)

  const QUOTA: nat := 256            // EXPLICIT_CONSUMER_CONSUMPTION_QUOTA_BEFORE_ROTATE
  const WORD: nat := 0x1_0000_0000   // the offsets are 32-bit words

  // ---------- the circular walk ----------

  /** The k-th producer after p, going round the list of n. */
  function Back(p: nat, k: nat, n: nat): (q: nat)
    requires n > 0
    ensures q < n
  {
    (p - k) % n
  }

  /** next_prod, and from the end of the list to its tail. */
  function Next(p: nat, n: nat): (q: nat)
    requires p < n
    ensures q < n
  {
    if p == 0 then n - 1 else p - 1
  }

  lemma NextIsBack(p: nat, k: nat, n: nat)
    requires n > 0
    ensures Next(Back(p, k, n), n) == Back(p, k + 1, n)
  {
    RemainderLeft(p - k, -1, n);
    var q := Back(p, k, n);
    if q == 0 {
      RemainderUnique(-1, n, -1, n - 1);
    } else {
      SmallRemainder(q - 1, n);
    }
  }

  lemma BackAtOnce(p: nat, n: nat)
    requires p < n
    ensures Back(p, 0, n) == p && Back(p, n, n) == p
  {
    SmallRemainder(p, n);
    RemainderShift(p, n, -1);
  }

  /** The walk meets different producers for a whole turn. */
  lemma BackIsInjective(p: nat, i: nat, j: nat, n: nat)
    requires i < n && j < n && Back(p, i, n) == Back(p, j, n)
    ensures i == j
  {
    RemainderRight(p, p - i, n);
    RemainderRight(p, p - j, n);
    SmallRemainder(i, n);
    SmallRemainder(j, n);
  }

  /** And it meets every one. */
  lemma BackReaches(p: nat, q: nat, n: nat) returns (k: nat)
    requires p < n && q < n
    ensures k < n && Back(p, k, n) == q && (k == 0 <==> q == p)
  {
    k := (p - q) % n;
    RemainderRight(p, p - q, n);
    SmallRemainder(q, n);
    BackAtOnce(p, n);
    if k == 0 {
      assert Back(p, 0, n) == q;
    }
    if q == p {
      SmallRemainder(0, n);
    }
  }

  /** The producers of a whole walk from p, without p itself. */
  ghost predicate VisitsOthers(visited: seq<nat>, p: nat, n: nat) {
    && (forall i, j :: 0 <= i < j < |visited| ==> visited[i] != visited[j])
    && (forall q: nat :: q in visited <==> q < n && q != p)
  }

  lemma WholeWalk(visited: seq<nat>, p: nat, n: nat)
    requires p < n && |visited| == n - 1 && forall i :: 0 <= i < n - 1 ==> visited[i] == Back(p, i + 1, n)
    ensures VisitsOthers(visited, p, n)
  {
    forall i, j | 0 <= i < j < |visited| ensures visited[i] != visited[j] {
      if visited[i] == visited[j] {
        BackIsInjective(p, i + 1, j + 1, n);
      }
    }
    forall q: nat ensures q in visited <==> q < n && q != p {
      if q < n && q != p {
        var k := BackReaches(p, q, n);
        assert visited[k - 1] == q;
      }
      if q in visited {
        var i :| 0 <= i < |visited| && visited[i] == q;
        if q == p {
          BackAtOnce(p, n);
          BackIsInjective(p, i + 1, 0, n);
        }
      }
    }
  }

  /** So many times to the next producer. */
  method GoBack(p: nat, steps: nat, n: nat) returns (q: nat)
    requires p < n
    ensures q == Back(p, steps, n)
  {
    hide Back, Next;
    BackAtOnce(p, n);
    q := p;
    for i := 0 to steps
      invariant q < n && q == Back(p, i, n)
    {
      NextIsBack(p, i, n);
      q := Next(q, n);
    }
  }

  /** Counted from the tail, the place of a new token is producer number initialOffset modulo their number. */
  lemma FirstProducer(initialOffset: nat, n: nat)
    requires n > 0
    ensures Back(n - 1, n - 1 - initialOffset % n, n) == initialOffset % n
  {
    SmallRemainder(initialOffset % n, n);
  }

  /** A distance of words that wrap around. */
  function Delta(offset: nat, known: nat): nat {
    (offset - known) % WORD
  }

  lemma BackByRemainder(p: nat, k: nat, n: nat)
    requires n > 0
    ensures Back(p, k % n, n) == Back(p, k, n)
  {
    RemainderRight(p, k, n);
  }

  /** Back at the start, the walk has gone once round. */
  lemma WalkEnds(p: nat, i: nat, n: nat)
    requires p < n && 1 <= i <= n && Back(p, i, n) == p
    ensures i == n
  {
    BackAtOnce(p, n);
    if i < n {
      BackIsInjective(p, i, 0, n);
    }
  }

  // ---------- a sub-queue ----------

  datatype Sub<X> = Sub(tickets: T.State, items: seq<X>)

  ghost predicate SubOk<X>(sub: Sub<X>, threads: nat) {
    T.Inv(sub.tickets) && |sub.tickets.pcs| == threads && sub.tickets.tail == |sub.items| && sub.tickets.head <= |sub.items|
  }

  /** The elements not taken. */
  function Left<X>(sub: Sub<X>): seq<X> {
    if sub.tickets.head <= |sub.items| then sub.items[sub.tickets.head..] else []
  }

  function Lefts<X>(subs: seq<Sub<X>>): (lefts: seq<seq<X>>)
    ensures |lefts| == |subs|
  {
    seq(|subs|, p requires 0 <= p < |subs| => Left(subs[p]))
  }

  /** Producers and consumers have gone on. */
  ghost predicate Later<X>(a: Sub<X>, b: Sub<X>) {
    && a.items <= b.items && a.tickets.tail <= b.tickets.tail && a.tickets.head <= b.tickets.head
    && a.tickets.opt <= b.tickets.opt && a.tickets.over <= b.tickets.over && a.tickets.claims <= b.tickets.claims
  }

  ghost predicate AllLater<X>(a: seq<Sub<X>>, b: seq<Sub<X>>) {
    |a| == |b| && forall p: nat :: p < |a| ==> Later(a[p], b[p])
  }

  lemma AllLaterAtOnce<X>(a: seq<Sub<X>>)
    ensures AllLater(a, a)
  {
  }

  lemma AllLaterChains<X>(a: seq<Sub<X>>, b: seq<Sub<X>>, c: seq<Sub<X>>)
    requires AllLater(a, b) && AllLater(b, c)
    ensures AllLater(a, c)
  {
    forall p: nat | p < |a| ensures Later(a[p], c[p]) {
      assert Later(a[p], b[p]) && Later(b[p], c[p]);
    }
  }

  /** All that was there at a has been claimed since, or the head has passed it. */
  ghost predicate Missed<X>(a: Sub<X>, b: Sub<X>) {
    a.tickets.tail <= b.tickets.head || a.tickets.tail + a.tickets.over <= b.tickets.opt
  }

  lemma MissedEarlier<X>(a: Sub<X>, b: Sub<X>, c: Sub<X>)
    requires Later(a, b) && Missed(b, c)
    ensures Missed(a, c)
  {
  }

  /** What has been missed since a stays so. */
  lemma MissedOnes<X>(a: seq<Sub<X>>, b: seq<Sub<X>>, c: seq<Sub<X>>)
    requires AllLater(a, b) && AllLater(b, c)
    ensures forall p: nat :: p < |a| && Missed(a[p], b[p]) ==> Missed(a[p], c[p])
    ensures forall p: nat :: p < |a| && Missed(b[p], c[p]) ==> Missed(a[p], c[p])
  {
    forall p: nat | p < |a| ensures (Missed(a[p], b[p]) ==> Missed(a[p], c[p])) && (Missed(b[p], c[p]) ==> Missed(a[p], c[p])) {
      assert Later(a[p], b[p]) && Later(b[p], c[p]);
    }
  }

  lemma SameNumber<X>(a: seq<Sub<X>>, b: seq<Sub<X>>)
    ensures AllLater(a, b) ==> |a| == |b|
  {
  }

  lemma AllLeftBehind<X>(a: seq<Sub<X>>, b: seq<Sub<X>>, threads: nat)
    requires AllLater(a, b) && forall p: nat :: p < |a| ==> Missed(a[p], b[p]) && SubOk(b[p], threads)
    ensures forall p: nat :: p < |a| ==> LeftBehind(a[p], b[p])
  {
    forall p: nat | p < |a| ensures LeftBehind(a[p], b[p]) {
      assert Missed(a[p], b[p]) && Later(a[p], b[p]) && SubOk(b[p], threads);
      MissedMeans(a[p], b[p]);
    }
  }

  /** The units that dequeues have claimed and neither taken nor returned. */
  ghost function UnderWay(s: T.State): nat {
    Sum(T.Claimed(), s.pcs) + Sum(T.ToTake(), s.pcs) + Sum(T.ToReturn(), s.pcs)
  }

  /** Of the elements that were there at a, at most as many are left at b as dequeues have under way, or have lost and returned since a. */
  ghost predicate LeftBehind<X>(a: Sub<X>, b: Sub<X>) {
    a.tickets.tail - b.tickets.head <= (b.tickets.over - a.tickets.over) + UnderWay(b.tickets)
  }

  lemma MissedMeans<X>(a: Sub<X>, b: Sub<X>)
    requires Missed(a, b) && Later(a, b) && T.Inv(b.tickets)
    ensures LeftBehind(a, b)
  {
    T.OptimisticCountAccount(b.tickets);
  }

  /** How many of the sub-queues from number p on are not empty. */
  function NonEmpty<T>(subs: seq<seq<T>>, p: nat): nat
    decreases |subs| - p
  {
    if p >= |subs| then 0 else (if subs[p] == [] then 0 else 1) + NonEmpty(subs, p + 1)
  }

  /** Of the sub-queues from number p on, best is the newest of the largest. */
  ghost predicate LargestFrom<T>(subs: seq<seq<T>>, p: nat, best: nat) {
    && p <= best < |subs|
    && forall q :: p <= q < |subs| ==> |subs[q]| <= |subs[best]| && (q > best ==> |subs[q]| < |subs[best]|)
  }

  /** The largest of the newest three that are not empty, or of all if there are fewer. */
  ghost predicate IsBest<T>(subs: seq<seq<T>>, best: nat) {
    exists p: nat :: LargestFrom(subs, p, best) && NonEmpty(subs, p) <= 3 && (p == 0 || NonEmpty(subs, p) == 3)
  }

  /** No dequeue is in progress anywhere. */
  ghost predicate Quiet<X>(subs: seq<Sub<X>>) {
    forall p: nat :: p < |subs| ==> T.Quiescent(subs[p].tickets)
  }

  ghost predicate AllEmpty<T>(subs: seq<seq<T>>) {
    forall p :: 0 <= p < |subs| ==> subs[p] == []
  }

  /** One sub-queue has lost its first element and no other has changed. */
  ghost predicate TookAt<T>(before: seq<seq<T>>, after: seq<seq<T>>, p: nat, x: T) {
    p < |before| && before[p] != [] && x == before[p][0] && after == before[p := before[p][1..]]
  }

  /** Element i of sub-queue p, not handed out before, has been handed to `me`. */
  ghost predicate HandedAt<X>(a: seq<Sub<X>>, b: seq<Sub<X>>, me: nat, p: nat, i: nat, x: X) {
    && p < |a| == |b| && a[p].tickets.head <= i < b[p].tickets.head && i < |b[p].items| && b[p].items[i] == x
    && T.Claim(me, i, 1) in b[p].tickets.claims
  }

  ghost predicate HandedFrom<X>(a: seq<Sub<X>>, b: seq<Sub<X>>, me: nat, p: nat, x: X) {
    exists i: nat :: HandedAt(a, b, me, p, i, x)
  }

  ghost predicate Handed<X>(a: seq<Sub<X>>, b: seq<Sub<X>>, me: nat, x: X) {
    exists p: nat :: HandedFrom(a, b, me, p, x)
  }

  // ---------- one dequeue ----------

  /** What is known of a dequeue by `me` that began at a, from its local variables. */
  ghost predicate Underway(a: T.State, s: T.State, me: nat, max: nat)
    requires me < |s.pcs|
  {
    match s.pcs[me]
    case Idle => a.tail + a.over <= s.opt
    case LoadTail(m) => m == max
    case LoadOver(m, tail) => m == max && a.tail <= tail
    case LoadOpt(m, tail, over) => m == max && a.tail <= tail && a.over <= over
    case FetchOpt(over, desired) => a.over <= over && desired <= max
    case ReloadTail(over, _, desired) => a.over <= over && desired <= max
    case AddOver(back, actual) => actual + back <= max && (actual == 0 ==> a.tail + a.over <= s.opt)
    case FetchHead(actual) => actual <= max
    case Reading(first, count) => count <= max && a.head <= first && first + count <= s.head
  }

  /** How many more steps a dequeue can take. */
  function Rank(pc: T.Pc): nat {
    match pc
    case Idle => 0
    case LoadTail(_) => 8
    case LoadOver(_, _) => 7
    case LoadOpt(_, _, _) => 6
    case FetchOpt(_, _) => 5
    case ReloadTail(_, _, _) => 4
    case AddOver(_, _) => 3
    case FetchHead(_) => 2
    case Reading(_, _) => 1
  }

  /** A step of me's. */
  lemma MyStep(a: T.State, s: T.State, me: nat, max: nat)
    requires T.Inv(s) && me < |s.pcs| && !s.pcs[me].Idle? && !s.pcs[me].Reading?
    requires a.tail <= s.tail && a.head <= s.head && a.over <= s.over && a.opt <= s.opt && Underway(a, s, me, max)
    ensures T.TicketsIssued(s) && T.Inv(T.StepOf(s, me))
    ensures var s' := T.StepOf(s, me);
      && |s'.pcs| == |s.pcs| && Underway(a, s', me, max) && Rank(s'.pcs[me]) < Rank(s.pcs[me])
      && s'.tail == s.tail && s.head <= s'.head && s.over <= s'.over && s.opt <= s'.opt && s.claims <= s'.claims
      && (s'.pcs[me].Reading? ==> s'.claims == s.claims + [T.Claim(me, s'.pcs[me].first, s'.pcs[me].count)])
      && (!s'.pcs[me].Reading? ==> s'.claims == s.claims)
  {
    T.StepKeepsInv(s, me);
    assert T.PcOk(s, me);
  }

  /** Nothing others do takes away what is known. */
  lemma UnderwayStays(a: T.State, s: T.State, s': T.State, me: nat, max: nat)
    requires me < |s.pcs| && me < |s'.pcs| && s'.pcs[me] == s.pcs[me] && Underway(a, s, me, max)
    requires s.opt <= s'.opt && s.head <= s'.head
    ensures Underway(a, s', me, max)
  {
  }

  /** A lone dequeue, from the steps of module Tickets. */
  lemma QuietCall(a: T.State, s: T.State, me: nat, max: nat, n: nat)
    requires T.Inv(a) && T.Quiescent(a) && me < |a.pcs| && max >= 1 && T.TicketsIssued(a) && T.Inv(T.Next(a, T.Dequeue(me, max)))
    requires s == T.Solo(T.Next(a, T.Dequeue(me, max)), me, n) && me < |s.pcs| && s.pcs[me].Idle?
    ensures T.Quiescent(s) && s.tail == a.tail && s.over == a.over && s.head == a.head + T.Min(a.tail - a.head, max)
    ensures s.claims == a.claims + (if a.tail <= a.head then [] else [T.Claim(me, a.head, T.Min(a.tail - a.head, max))])
  {
    hide T.StepOf, T.Inv;
    T.QuiescentDequeue(a, me, max);
    T.SoloCall(a, me, max);
    T.HeadNeverPassesTail(a);
    SoloEnds(T.Next(a, T.Dequeue(me, max)), me, n, 7);
  }

  lemma OtherFacts<X>(sub: Sub<X>, me: nat, x: T.Action)
    requires T.Inv(sub.tickets) && me < |sub.tickets.pcs| && T.Enabled(sub.tickets, x) && (x.Enqueue? || x.t != me)
    ensures T.TicketsIssued(sub.tickets)
    ensures var s, s' := sub.tickets, T.Next(sub.tickets, x);
      && T.Inv(s') && |s'.pcs| == |s.pcs| && s'.pcs[me] == s.pcs[me] && s'.head <= s'.tail
      && s.tail <= s'.tail && s.head <= s'.head && s.over <= s'.over && s.opt <= s'.opt && s.claims <= s'.claims
      && s'.tail == s.tail + (if x.Enqueue? then x.count else 0)
  {
    T.NextKeepsInv(sub.tickets, x);
    T.HeadNeverPassesTail(T.Next(sub.tickets, x));
  }

  lemma ReadingFacts(s: T.State, me: nat)
    requires T.Inv(s) && T.TicketsIssued(s) && me < |s.pcs| && s.pcs[me].Reading?
    ensures s.pcs[me].count >= 1 && T.Claim(me, s.pcs[me].first, s.pcs[me].count) in s.claims
    ensures s.pcs[me].first + s.pcs[me].count <= s.head <= s.tail
    ensures T.StepOf(s, me) == T.Go(s, me, T.Idle)
  {
    assert T.PcOk(s, me);
    T.ReadersAreBelowHead(s, me);
    T.HeadNeverPassesTail(s);
  }

  lemma StepSizes<X>(sub: Sub<X>, me: nat)
    requires T.Inv(sub.tickets) && T.TicketsIssued(sub.tickets) && me < |sub.tickets.pcs| && !sub.tickets.pcs[me].Idle?
    ensures var s, s' := sub.tickets, T.StepOf(sub.tickets, me);
      && T.Inv(s') && |s'.pcs| == |s.pcs| && s'.head <= s'.tail == s.tail
      && s.head <= s'.head && s.over <= s'.over && s.opt <= s'.opt && s.claims <= s'.claims
  {
    T.StepKeepsInv(sub.tickets, me);
    T.HeadNeverPassesTail(T.StepOf(sub.tickets, me));
  }

  /** These elements have been handed to me since a. */
  ghost predicate HandedRange<X>(a: Sub<X>, b: Sub<X>, me: nat, first: nat, out: seq<X>, max: nat) {
    && |out| <= max && a.tickets.head <= first && first + |out| <= b.tickets.head <= |b.items|
    && out == b.items[first..first + |out|] && T.Claim(me, first, |out|) in b.tickets.claims
  }

  lemma ReadingIsNew(a: T.State, s: T.State, me: nat, max: nat)
    requires me < |s.pcs| && Underway(a, s, me, max) && s.pcs[me].Reading?
    ensures a.head <= s.pcs[me].first && s.pcs[me].first + s.pcs[me].count <= s.head && s.pcs[me].count <= max
  {
  }

  /** The claims of a lone dequeue: its own, once it has one. */
  ghost predicate ClaimsSo<X>(a: T.State, s: T.State, me: nat, first: nat, out: seq<X>)
    requires me < |s.pcs|
  {
    s.claims == a.claims + if out != [] then [T.Claim(me, first, |out|)]
                           else if s.pcs[me].Reading? then [T.Claim(me, s.pcs[me].first, s.pcs[me].count)] else []
  }

  lemma IdleIsMissed<X>(a: Sub<X>, b: Sub<X>, me: nat, max: nat, out: seq<X>)
    requires me < |b.tickets.pcs| && b.tickets.pcs[me].Idle? && (out == [] ==> Underway(a.tickets, b.tickets, me, max))
    ensures out == [] ==> Missed(a, b)
  {
  }

  lemma SoloZero(s: T.State, t: nat)
    requires T.Inv(s) && t < |s.pcs|
    ensures T.Solo(s, t, 0) == s
  {
  }

  lemma SoloNext(s: T.State, t: nat, n: nat)
    requires T.Inv(s) && t < |s.pcs| && t < |T.Solo(s, t, n).pcs| && !T.Solo(s, t, n).pcs[t].Idle?
    ensures T.TicketsIssued(T.Solo(s, t, n)) && T.Solo(s, t, n + 1) == T.StepOf(T.Solo(s, t, n), t)
  {
    T.SoloOneMore(s, t, n);
  }

  /** With no other operation in progress, one sub-queue has given as much as it has and is asked for. */
  lemma QuietEnd<X>(before: seq<Sub<X>>, after: seq<Sub<X>>, p: nat, me: nat, max: nat, n: nat, first: nat, out: seq<X>)
    requires p < |before| == |after| && Quiet(before) && T.Inv(before[p].tickets) && me < |before[p].tickets.pcs| && max >= 1
    requires before[p].tickets.tail == |before[p].items| && T.TicketsIssued(before[p].tickets)
    requires T.Inv(T.Next(before[p].tickets, T.Dequeue(me, max)))
    requires after[p].tickets == T.Solo(T.Next(before[p].tickets, T.Dequeue(me, max)), me, n) && me < |after[p].tickets.pcs|
    requires after[p].tickets.pcs[me].Idle? && after[p].items == before[p].items
    requires forall q: nat :: q < |before| && q != p ==> after[q] == before[q]
    requires ClaimsSo(before[p].tickets, after[p].tickets, me, first, out)
    requires out != [] ==> HandedRange(before[p], after[p], me, first, out, max)
    ensures Quiet(after)
    ensures var left := Left(before[p]);
      && |out| == (if |left| < max then |left| else max) && out == left[..|out|] && Left(after[p]) == left[|out|..]
  {
    hide T.Inv, T.Solo;
    var a, s := before[p].tickets, after[p].tickets;
    assert T.Quiescent(a);
    QuietCall(a, s, me, max, n);
    T.HeadNeverPassesTail(a);
    forall q: nat | q < |after| ensures T.Quiescent(after[q].tickets) {
      assert T.Quiescent(before[q].tickets);
    }
    assert s.claims[|a.claims|..] == (if a.tail <= a.head then [] else [T.Claim(me, a.head, T.Min(a.tail - a.head, max))]);
    assert s.claims[|a.claims|..] == (if out != [] then [T.Claim(me, first, |out|)] else []);
  }

  /** A lone call that has ended by step n and by step m has ended in the same state. */
  lemma {:induction false} SoloEnds(s: T.State, t: nat, n: nat, m: nat)
    requires T.Inv(s) && t < |s.pcs|
    requires t < |T.Solo(s, t, n).pcs| && T.Solo(s, t, n).pcs[t].Idle?
    requires t < |T.Solo(s, t, m).pcs| && T.Solo(s, t, m).pcs[t].Idle?
    ensures T.Solo(s, t, n) == T.Solo(s, t, m)
    decreases n
  {
    if !s.pcs[t].Idle? {
      T.StepKeepsInv(s, t);
      SoloEnds(T.StepOf(s, t), t, n - 1, m - 1);
    }
  }

  // ---------- a dequeue that fails although there is an element ----------

  /** The counters and the threads; not the history. */
  ghost predicate Looks(s: T.State, tail: nat, head: nat, opt: nat, over: nat, a: T.Pc, b: T.Pc, c: T.Pc) {
    s.tail == tail && s.head == head && s.opt == opt && s.over == over && s.pcs == [a, b, c]
  }

  lemma Extend(states: seq<T.State>, actions: seq<T.Action>, x: T.Action) returns (states': seq<T.State>, actions': seq<T.Action>)
    requires T.IsRun(states, actions) && T.Enabled(states[|actions|], x)
    ensures T.IsRun(states', actions') && |states| == |actions| + 1 && |states'| == |states| + 1
    ensures states'[..|states|] == states && actions' == actions + [x]
    ensures T.TicketsIssued(states[|actions|]) && states'[|actions'|] == T.Next(states[|actions|], x)
  {
    T.RunsKeepInv(states, actions, |actions|);
    T.TicketsAreIssued(states[|actions|]);
    states', actions' := states + [T.Next(states[|actions|], x)], actions + [x];
  }

  /** Thread t calls dequeue and gets as far as the fetch_add of the optimistic count; or, if nothing seems left, to the end. */
  lemma Call(states: seq<T.State>, actions: seq<T.Action>, t: nat) returns (states': seq<T.State>, actions': seq<T.Action>)
    requires T.IsRun(states, actions) && t < |states[|actions|].pcs| && states[|actions|].pcs[t].Idle?
    ensures T.IsRun(states', actions') && |states'| == |states| + 4 && |states'| == |actions'| + 1
    ensures states'[..|states|] == states && actions' == actions + [T.Dequeue(t, 1), T.Step(t), T.Step(t), T.Step(t)]
    ensures var s, s' := states[|actions|], states'[|actions'|];
      && s'.tail == s.tail && s'.head == s.head && s'.opt == s.opt && s'.over == s.over
      && s'.pcs == s.pcs[t := if T.Available(s.tail, s.opt, s.over) <= 0 then T.Idle else T.FetchOpt(s.over, 1)]
  {
    hide T.IsRun;
    states', actions' := Extend(states, actions, T.Dequeue(t, 1));
    var before := states';
    states', actions' := Extend(states', actions', T.Step(t));
    assert states'[..|states|] == before[..|states|];
    before := states';
    states', actions' := Extend(states', actions', T.Step(t));
    assert states'[..|states|] == before[..|states|];
    before := states';
    states', actions' := Extend(states', actions', T.Step(t));
    assert states'[..|states|] == before[..|states|];
  }

  /** Threads A and B get the tickets 0 and 1 of a sub-queue with one element; B finds that its ticket is worth nothing. */
  lemma TwoTickets() returns (states: seq<T.State>, actions: seq<T.Action>)
    ensures T.IsRun(states, actions) && |states| == |actions| + 1
    ensures Looks(states[|actions|], 1, 0, 2, 0, T.ReloadTail(0, 0, 1), T.AddOver(1, 0), T.Idle)
  {
    hide T.IsRun;
    states, actions := [T.State(0, 0, 0, 0, [T.Idle, T.Idle, T.Idle], [], [])], [];
    assert T.IsRun(states, actions) by {
      StartsRun(states[0]);
    }
    states, actions := Extend(states, actions, T.Enqueue(1));
    assert Looks(states[|actions|], 1, 0, 0, 0, T.Idle, T.Idle, T.Idle);
    states, actions := Call(states, actions, 0);
    states, actions := Call(states, actions, 1);
    assert Looks(states[|actions|], 1, 0, 0, 0, T.FetchOpt(0, 1), T.FetchOpt(0, 1), T.Idle);
    states, actions := Extend(states, actions, T.Step(0));
    assert Looks(states[|actions|], 1, 0, 1, 0, T.ReloadTail(0, 0, 1), T.FetchOpt(0, 1), T.Idle);
    states, actions := Extend(states, actions, T.Step(1));
    assert Looks(states[|actions|], 1, 0, 2, 0, T.ReloadTail(0, 0, 1), T.ReloadTail(0, 1, 1), T.Idle);
    states, actions := Extend(states, actions, T.Step(1));
  }

  lemma StartsRun(s: T.State)
    requires T.Init(s)
    ensures T.IsRun([s], [])
  {
  }

  /**
   Then A takes element 0 and one more element is enqueued. C, which calls dequeue now, fails, although element 1 is there and
   no dequeue is going to take it: B has only its ticket left to return.
   */
  lemma FailsWithElementLeft() returns (states: seq<T.State>, actions: seq<T.Action>, call: nat)
    ensures T.IsRun(states, actions) && |states| == |actions| + 1 && call < |states|
    ensures Looks(states[call], 2, 1, 2, 0, T.Idle, T.AddOver(1, 0), T.Idle)
    ensures Looks(states[|actions|], 2, 1, 2, 0, T.Idle, T.AddOver(1, 0), T.Idle) && |actions| == call + 4
    ensures actions[call..] == [T.Dequeue(2, 1), T.Step(2), T.Step(2), T.Step(2)]
  {
    hide T.IsRun;
    states, actions := TwoTickets();
    states, actions := Extend(states, actions, T.Step(0));
    assert Looks(states[|actions|], 1, 0, 2, 0, T.FetchHead(1), T.AddOver(1, 0), T.Idle);
    states, actions := Extend(states, actions, T.Step(0));
    assert Looks(states[|actions|], 1, 1, 2, 0, T.Reading(0, 1), T.AddOver(1, 0), T.Idle);
    states, actions := Extend(states, actions, T.Step(0));
    assert Looks(states[|actions|], 1, 1, 2, 0, T.Idle, T.AddOver(1, 0), T.Idle);
    states, actions := Extend(states, actions, T.Enqueue(1));
    call := |actions|;
    states, actions := Call(states, actions, 2);
  }

  /** The elements in the order the list is gone through: the newest producer's first. */
  function All<T>(subs: seq<seq<T>>): seq<T> {
    if subs == [] then [] else subs[|subs| - 1] + All(subs[..|subs| - 1])
  }

  /** Sub-queues that are empty do not count. */
  lemma {:induction false} AllOfEmptied<T>(subs: seq<seq<T>>, p: nat)
    requires p <= |subs| && forall q :: p <= q < |subs| ==> subs[q] == []
    ensures All(subs) == All(subs[..p])
  {
    if p < |subs| {
      var last := |subs| - 1;
      assert subs[..last][..p] == subs[..p];
      AllOfEmptied(subs[..last], p);
    } else {
      assert subs[..p] == subs;
    }
  }

  /** A change of one sub-queue, those after it being empty. */
  lemma AllOfLast<T>(subs: seq<seq<T>>, p: nat, rest: seq<T>)
    requires p < |subs| && forall q :: p < q < |subs| ==> subs[q] == []
    ensures All(subs[p := rest]) == rest + All(subs[..p])
    ensures All(subs[..p + 1]) == subs[p] + All(subs[..p])
  {
    AllOfEmptied(subs[p := rest], p + 1);
    assert subs[p := rest][..p + 1][..p] == subs[..p];
    assert subs[..p + 1][..p] == subs[..p];
  }

  /** One sub-queue of a bulk dequeue. */
  lemma BulkStep<T>(before: seq<seq<T>>, after: seq<seq<T>>, p: nat, out: seq<T>, got: seq<T>)
    requires p < |before| && forall q :: p < q < |before| ==> before[q] == []
    requires |got| <= |before[p]| && got == before[p][..|got|] && after == before[p := before[p][|got|..]]
    ensures out + got + All(after) == out + All(before[..p + 1])
    ensures after[p] == [] ==> All(after[..p]) == All(after)
  {
    AllOfLast(before, p, before[p][|got|..]);
    assert after[..p] == before[..p];
    assert out + (got + before[p][|got|..] + All(before[..p])) == out + got + (before[p][|got|..] + All(before[..p]));
  }

  /** The elements in the order of a walk from producer c: those of its first j producers. */
  function Upto<T>(subs: seq<seq<T>>, c: nat, j: nat): seq<T>
    requires c < |subs|
  {
    if j == 0 then [] else Upto(subs, c, j - 1) + subs[Back(c, j - 1, |subs|)]
  }

  /** From `before` to `after` the walk has taken these elements, in its order. */
  ghost predicate WalkedOff<T>(before: seq<seq<T>>, after: seq<seq<T>>, c: nat, out: seq<T>) {
    c < |before| == |after| && out + Upto(after, c, |after|) == Upto(before, c, |before|)
  }

  /** The producers before the j-th are empty, it has given `got`, and those after it are as before. */
  ghost predicate EmptiedUpto<T>(before: seq<seq<T>>, after: seq<seq<T>>, c: nat, j: nat, got: seq<T>)
    requires c < |before| == |after| && j < |before|
  {
    && (forall k: nat :: k < j ==> after[Back(c, k, |before|)] == [])
    && got + after[Back(c, j, |before|)] == before[Back(c, j, |before|)]
    && (forall k: nat :: j < k < |before| ==> after[Back(c, k, |before|)] == before[Back(c, k, |before|)])
  }

  lemma {:induction false} UptoOfEmpty<T>(subs: seq<seq<T>>, c: nat, j: nat)
    requires c < |subs| && forall k: nat :: k < j ==> subs[Back(c, k, |subs|)] == []
    ensures Upto(subs, c, j) == []
  {
    if j > 0 {
      UptoOfEmpty(subs, c, j - 1);
    }
  }

  /** What has been taken and what is left make up what there was. */
  lemma {:induction false} UptoSplits<T>(before: seq<seq<T>>, after: seq<seq<T>>, c: nat, j: nat, got: seq<T>, m: nat)
    requires c < |before| == |after| && j < m <= |before| && EmptiedUpto(before, after, c, j, got)
    ensures Upto(before, c, j) + got + Upto(after, c, m) == Upto(before, c, m)
    decreases m
  {
    hide Back;
    if m == j + 1 {
      UptoOfEmpty(after, c, j);
      assert Upto(before, c, j) + got + after[Back(c, j, |before|)] == Upto(before, c, j) + (got + after[Back(c, j, |before|)]);
    } else {
      UptoSplits(before, after, c, j, got, m - 1);
      var last := after[Back(c, m - 1, |before|)];
      assert Upto(before, c, j) + got + (Upto(after, c, m - 1) + last) == Upto(before, c, j) + got + Upto(after, c, m - 1) + last;
    }
  }

  /** How many elements a sub-queue has given. */
  function Gave<T>(before: seq<seq<T>>, after: seq<seq<T>>, p: nat): int
    requires p < |before| == |after|
  {
    |before[p]| - |after[p]|
  }

  /** The `last`-th producer of the walk from c is the last one that has given something, unless it is c itself. */
  ghost predicate EndsAt<T>(before: seq<seq<T>>, after: seq<seq<T>>, c: nat, last: nat) {
    && c < |before| == |after| && last < |before|
    && (last > 0 ==> Gave(before, after, Back(c, last, |before|)) > 0)
    && forall k: nat :: last < k < |before| ==> Gave(before, after, Back(c, k, |before|)) == 0
  }

  lemma UptoStarts<T>(subs: seq<seq<T>>, c: nat)
    requires c < |subs| && subs[c] == []
    ensures Walking(subs, subs, c, 1, 0, []) && FromFronts(subs, subs)
  {
    BackAtOnce(c, |subs|);
    assert Upto(subs, c, 1) == Upto(subs, c, 0) + subs[Back(c, 0, |subs|)];
  }

  function AtMost(j: nat, n: nat): nat {
    if j < n then j else n
  }

  /** Sub-queue p has given `got` from its front, and no other has changed. */
  ghost predicate GaveAt<T>(before: seq<seq<T>>, after: seq<seq<T>>, p: nat, got: seq<T>) {
    && p < |before| == |after| && got + after[p] == before[p]
    && forall q: nat :: q < |before| && q != p ==> after[q] == before[q]
  }

  lemma GaveFromFronts<T>(before: seq<seq<T>>, after: seq<seq<T>>, p: nat, got: seq<T>)
    requires GaveAt(before, after, p, got)
    ensures FromFronts(before, after)
  {
  }

  /** A walk from c has emptied its first j producers and got `out`; the `last`-th was the last to give something. */
  ghost predicate Walking<T>(before: seq<seq<T>>, now: seq<seq<T>>, c: nat, j: nat, last: nat, out: seq<T>) {
    && c < |before| == |now| && last < j && last < |before| && out == Upto(before, c, AtMost(j, |before|))
    && (forall k: nat :: k < j && k < |before| ==> now[Back(c, k, |before|)] == [])
    && (forall k: nat :: j <= k < |before| ==> now[Back(c, k, |before|)] == before[Back(c, k, |before|)])
    && (last > 0 ==> before[Back(c, last, |before|)] != [])
    && (forall k: nat :: last < k < j && k < |before| ==> before[Back(c, k, |before|)] == [])
  }

  /** Going on from where one has gone. */
  lemma BackAdds(c: nat, i: nat, k: nat, n: nat)
    requires n > 0
    ensures Back(Back(c, i, n), k, n) == Back(c, i + k, n)
  {
    RemainderLeft(c - i, 0 - k, n);
  }

  /** The walk is back at its last giver after a whole turn, and not before. */
  lemma BackIsAgain(c: nat, last: nat, j: nat, n: nat)
    requires c < n && last < j <= last + n
    ensures Back(c, j, n) == Back(c, last, n) <==> j == last + n
    ensures j >= n ==> Back(c, j, n) == Back(c, j - n, n)
  {
    hide Back;
    BackAdds(c, last, j - last, n);
    BackAtOnce(Back(c, last, n), n);
    if Back(c, j, n) == Back(c, last, n) {
      WalkEnds(Back(c, last, n), j - last, n);
    }
    if j >= n {
      BackAdds(c, n, j - n, n);
      BackAtOnce(c, n);
    }
  }

  lemma WalkingEnds<T>(before: seq<seq<T>>, now: seq<seq<T>>, c: nat, j: nat, last: nat, out: seq<T>)
    requires Walking(before, now, c, j, last, out) && j >= |before|
    ensures WalkedOff(before, now, c, out) && EndsAt(before, now, c, last)
    ensures last > 0 ==> Gave(before, now, Back(c, last, |before|)) == |before[Back(c, last, |before|)]|
  {
    hide Back, Upto;
    UptoOfEmpty(now, c, |before|);
  }

  lemma WalkingSize<T>(before: seq<seq<T>>, now: seq<seq<T>>, c: nat, j: nat, last: nat, out: seq<T>)
    requires Walking(before, now, c, j, last, out)
    ensures |before| == |now| && last < |now|
  {
  }

  lemma WalkingFinished<T>(before: seq<seq<T>>, now: seq<seq<T>>, c: nat, j: nat, last: nat, out: seq<T>)
    requires Walking(before, now, c, j, last, out) && j >= |before|
    ensures Total(now) == 0 && now[c] == []
  {
    hide Back, Upto;
    forall p: nat | p < |now| ensures now[p] == [] {
      var k := BackReaches(c, p, |now|);
    }
    TotalOfEmpty(now);
  }

  /** The j-th producer has given `got`; with nothing left of it, the walk goes on, and otherwise it is over. */
  lemma WalkingOn<T>(before: seq<seq<T>>, now: seq<seq<T>>, after: seq<seq<T>>, c: nat, j: nat, last: nat, out: seq<T>, got: seq<T>)
    requires Walking(before, now, c, j, last, out) && j < last + |before| && GaveAt(now, after, Back(c, j, |before|), got)
    ensures |after| == |before|
    ensures got != [] ==> j < |before| && Gave(before, after, Back(c, j, |before|)) == |got|
    ensures got != [] ==> WalkedOff(before, after, c, out + got) && EndsAt(before, after, c, j)
    ensures after[Back(c, j, |before|)] == [] ==> Walking(before, after, c, j + 1, if got == [] then last else j, out + got)
    ensures after[Back(c, j, |before|)] == [] && got != [] ==> |got| == |before[Back(c, j, |before|)]|
    ensures after[c] == []
  {
    hide Back, Upto;
    var n := |before|;
    var p := Back(c, j, n);
    BackIsAgain(c, last, j, n);
    BackAtOnce(c, n);
    if j < n {
      forall k: nat | k < n && k != j ensures Back(c, k, n) != p {
        if Back(c, k, n) == p {
          BackIsInjective(c, k, j, n);
        }
      }
      assert EmptiedUpto(before, after, c, j, got);
      UptoSplits(before, after, c, j, got, n);
      UptoOne(before, c, j);
    } else {
      assert Back(c, j - n, n) == p;
    }
  }

  lemma UptoOne<T>(subs: seq<seq<T>>, c: nat, j: nat)
    requires c < |subs|
    ensures Upto(subs, c, j + 1) == Upto(subs, c, j) + subs[Back(c, j, |subs|)]
  {
  }

  lemma FirstGives<T>(before: seq<seq<T>>, after: seq<seq<T>>, c: nat, got: seq<T>)
    requires GaveAt(before, after, c, got)
    ensures |after| == |before| && WalkedOff(before, after, c, got) && EndsAt(before, after, c, 0) && Gave(before, after, c) == |got|
  {
    hide Back, Upto;
    var n := |before|;
    BackAtOnce(c, n);
    forall k: nat | 0 < k < n ensures Back(c, k, n) != c {
      if Back(c, k, n) == c {
        BackIsInjective(c, k, 0, n);
      }
    }
    assert EmptiedUpto(before, after, c, 0, got);
    UptoSplits(before, after, c, 0, got, n);
    UptoZero(before, c);
    assert [] + got + Upto(after, c, n) == got + Upto(after, c, n);
  }

  lemma UptoZero<T>(subs: seq<seq<T>>, c: nat)
    requires c < |subs|
    ensures Upto(subs, c, 0) == []
  {
  }

  /** First c gives all it has, then the rest of the walk. */
  lemma FirstThenRest<T>(before: seq<seq<T>>, mid: seq<seq<T>>, after: seq<seq<T>>, c: nat, got: seq<T>, out: seq<T>, last: nat)
    requires GaveAt(before, mid, c, got) && mid[c] == []
    requires WalkedOff(mid, after, c, out) && EndsAt(mid, after, c, last) && after[c] == []
    ensures WalkedOff(before, after, c, got + out) && EndsAt(before, after, c, last)
    ensures |after| == |before| && Gave(before, after, c) == |got|
    ensures last > 0 ==> Gave(before, after, Back(c, last, |before|)) == Gave(mid, after, Back(c, last, |before|))
  {
    hide Back, Upto;
    var n := |before|;
    FirstGives(before, mid, c, got);
    assert (got + out) + Upto(after, c, n) == got + (out + Upto(after, c, n));
    BackAtOnce(c, n);
    forall k: nat | 0 < k < n ensures Back(c, k, n) != c {
      if Back(c, k, n) == c {
        BackIsInjective(c, k, 0, n);
      }
    }
  }

  /** Each sub-queue has given what was in front of what is left of it. */
  ghost predicate FromFronts<T>(before: seq<seq<T>>, after: seq<seq<T>>) {
    && |before| == |after|
    && forall p :: 0 <= p < |before| ==> |after[p]| <= |before[p]| && after[p] == before[p][|before[p]| - |after[p]|..]
  }

  lemma FromFrontsChains<T>(a: seq<seq<T>>, b: seq<seq<T>>, c: seq<seq<T>>)
    requires FromFronts(a, b) && FromFronts(b, c)
    ensures FromFronts(a, c)
  {
  }

  function Total<T>(subs: seq<seq<T>>): nat {
    if subs == [] then 0 else |subs[|subs| - 1]| + Total(subs[..|subs| - 1])
  }

  lemma {:induction false} TotalUpdate<T>(subs: seq<seq<T>>, p: nat, x: seq<T>)
    requires p < |subs|
    ensures Total(subs[p := x]) + |subs[p]| == Total(subs) + |x|
  {
    var last := |subs| - 1;
    if p == last {
      assert subs[p := x][..last] == subs[..last];
    } else {
      assert subs[p := x][..last] == subs[..last][p := x];
      TotalUpdate(subs[..last], p, x);
    }
  }

  lemma {:induction false} TotalOfEmpty<T>(subs: seq<seq<T>>)
    ensures AllEmpty(subs) <==> Total(subs) == 0
  {
    if subs != [] {
      var last := |subs| - 1;
      TotalOfEmpty(subs[..last]);
      if AllEmpty(subs[..last]) && subs[last] == [] {
        forall p | 0 <= p < |subs| ensures subs[p] == [] {
          assert p < last ==> subs[..last][p] == [];
        }
      }
      if AllEmpty(subs) {
        assert AllEmpty(subs[..last]);
      }
    }
  }

  // ---------- where a token is ----------

  /** A token's fields: the offset it knows, the elements consumed, and the producers it is at and was to be at. */
  datatype Place = Place(known: nat, consumed: nat, current: Option<nat>, desired: Option<nat>)

  /** It has not been used, or there has been a rotation since. */
  predicate IsStale(place: Place, globalOffset: nat) {
    place.desired.None? || place.known != globalOffset
  }

  /** Where a token begins, with n producers: a stale one where the rotations have brought it, with nothing consumed yet. */
  function Begins(place: Place, initialOffset: nat, globalOffset: nat, n: nat): (begun: Place)
    requires n > 0
    ensures begun.desired.Some? && begun.known == globalOffset
  {
    if IsStale(place, globalOffset) then
      var start := if place.desired.None? then initialOffset % n else place.desired.value;
      var p := Back(start, Delta(globalOffset, place.known), n);
      Place(globalOffset, 0, Some(p), Some(p))
    else place
  }

  class Token {
    var initialOffset: nat
    var lastKnownGlobalOffset: nat
    var itemsConsumedFromCurrent: nat
    var currentProducer: Option<nat>
    var desiredProducer: Option<nat>

    ghost function Where(): Place
      reads this
    {
      Place(lastKnownGlobalOffset, itemsConsumedFromCurrent, currentProducer, desiredProducer)
    }

    /** The producers it knows are among the first n. */
    ghost predicate Valid(n: nat)
      reads this
    {
      desiredProducer.Some? ==> desiredProducer.value < n && currentProducer.Some? && currentProducer.value < n
    }

    constructor (initialOffset: nat)
      ensures desiredProducer == None && this.initialOffset == initialOffset && forall n :: Valid(n)
    {
      this.initialOffset, lastKnownGlobalOffset, itemsConsumedFromCurrent := initialOffset, 0, 0;
      currentProducer, desiredProducer := None, None;
    }
  }

  class Queue<X> {
    const me: nat                // the consumer
    const threads: nat
    var subs: seq<Sub<X>>
    var globalOffset: nat        // globalExplicitConsumerOffset

    /** In a dequeue of sub-queue p, or in none. */
    ghost predicate In(p: nat)
      reads this
    {
      && me < threads
      && forall q: nat :: q < |subs| ==> SubOk(subs[q], threads) && (q != p ==> subs[q].tickets.pcs[me].Idle?)
    }

    ghost predicate Valid()
      reads this
    {
      In(|subs|)
    }

    constructor (me: nat, threads: nat)
      requires me < threads
      ensures Valid() && subs == [] && globalOffset == 0 && this.me == me && this.threads == threads
    {
      this.me, this.threads, subs, globalOffset := me, threads, [], 0;
    }

    // ---------- the others ----------

    /** A producer publishes xs, or another consumer takes a step of its dequeue. */
    method OtherStep(p: nat, x: T.Action, xs: seq<X>, ghost at: nat)
      requires In(at) && p < |subs| && T.Enabled(subs[p].tickets, x)
      requires if x.Enqueue? then x.count == |xs| else x.t != me && xs == []
      modifies this`subs
      ensures In(at) && AllLater(old(subs), subs)
      ensures forall q: nat :: q < |subs| ==> subs[q].tickets.pcs[me] == old(subs)[q].tickets.pcs[me]
    {
      hide T.Inv, T.Next;
      ghost var before := subs;
      assert SubOk(subs[p], threads);
      OtherFacts(subs[p], me, x);
      subs := subs[p := Sub(T.Next(subs[p].tickets, x), subs[p].items + xs)];
      forall q: nat | q < |subs| ensures Later(before[q], subs[q]) && SubOk(subs[q], threads) {
        assert SubOk(before[q], threads);
      }
    }

    /** Unless it is quiet, producers and other consumers take any steps. */
    method Others(quiet: bool, ghost at: nat)
      requires In(at)
      modifies this`subs
      ensures In(at) && AllLater(old(subs), subs) && (quiet ==> subs == old(subs))
      ensures forall q: nat :: q < |subs| ==> subs[q].tickets.pcs[me] == old(subs)[q].tickets.pcs[me]
    {
      AllLaterAtOnce(subs);
      var rounds: nat := *;
      while !quiet && rounds > 0
        invariant In(at) && AllLater(old(subs), subs) && (quiet ==> subs == old(subs))
        invariant forall q: nat :: q < |subs| ==> subs[q].tickets.pcs[me] == old(subs)[q].tickets.pcs[me]
      {
        var p: nat := *;
        var t: nat := *;
        var max: nat := *;
        var xs: seq<X> := *;
        var publish: bool := *;
        ghost var before := subs;
        if 0 <= p < |subs| && (publish || (0 <= t < |subs[p].tickets.pcs| && t != me && max >= 1)) {
          var pcs := subs[p].tickets.pcs;
          if publish {
            OtherStep(p, T.Enqueue(|xs|), xs, at);
          } else if pcs[t].Idle? {
            OtherStep(p, T.Dequeue(t, max), [], at);
          } else {
            OtherStep(p, T.Step(t), [], at);
          }
          AllLaterChains(old(subs), before, subs);
        }
        rounds := rounds - 1;
      }
    }

    // ---------- one sub-queue ----------

    /** The call of dequeue, or dequeue_bulk. */
    method Begin(p: nat, max: nat)
      requires Valid() && p < |subs| && max >= 1
      modifies this`subs
      ensures In(p) && AllLater(old(subs), subs) && T.TicketsIssued(old(subs)[p].tickets)
      ensures subs == old(subs)[p := Sub(T.Next(old(subs)[p].tickets, T.Dequeue(me, max)), old(subs)[p].items)]
      ensures me < |subs[p].tickets.pcs| && Underway(old(subs)[p].tickets, subs[p].tickets, me, max)
    {
      assert SubOk(subs[p], threads);
      T.NextKeepsInv(subs[p].tickets, T.Dequeue(me, max));
      hide T.Inv;
      subs := subs[p := Sub(T.Next(subs[p].tickets, T.Dequeue(me, max)), subs[p].items)];
    }

    /** One step of the dequeue; the elements of its range, when it has one. */
    method Advance(p: nat, max: nat, ghost a: Sub<X>) returns (out: seq<X>)
      requires In(p) && p < |subs| && Later(a, subs[p])
      requires !subs[p].tickets.pcs[me].Idle? && Underway(a.tickets, subs[p].tickets, me, max)
      modifies this`subs
      ensures In(p) && AllLater(old(subs), subs) && T.TicketsIssued(old(subs)[p].tickets)
      ensures subs == old(subs)[p := Sub(T.StepOf(old(subs)[p].tickets, me), old(subs)[p].items)]
      ensures var s, s' := old(subs)[p].tickets, subs[p].tickets;
        && me < |s.pcs| == |s'.pcs| && Rank(s'.pcs[me]) < Rank(s.pcs[me])
        && (if s.pcs[me].Reading? then
              var first, count := s.pcs[me].first, s.pcs[me].count;
              && s'.pcs[me].Idle? && count >= 1 && T.Claim(me, first, count) in s.claims && s'.claims == s.claims && s'.head == s.head
              && first + count <= |subs[p].items| && out == subs[p].items[first..first + count]
            else
              && out == [] && Underway(a.tickets, s', me, max)
              && s'.claims == s.claims + (if s'.pcs[me].Reading? then [T.Claim(me, s'.pcs[me].first, s'.pcs[me].count)] else []))
    {
      ghost var before := subs;
      assert SubOk(subs[p], threads);
      hide T.StepOf;
      var s := subs[p].tickets;
      T.TicketsAreIssued(s);
      if s.pcs[me].Reading? {
        ReadingFacts(s, me);
        out := subs[p].items[s.pcs[me].first..s.pcs[me].first + s.pcs[me].count];
      } else {
        MyStep(a.tickets, s, me, max);
        out := [];
      }
      subs := subs[p := Sub(T.StepOf(s, me), subs[p].items)];
      StepSizes(before[p], me);
      forall q: nat | q < |subs| ensures Later(before[q], subs[q]) && SubOk(subs[q], threads) {
        assert SubOk(before[q], threads);
      }
    }

    /**
     dequeue and dequeue_bulk of one sub-queue. What comes back has been handed out to nobody else; if nothing does, all that
     was there has been claimed. With no other operation in progress it is as many as there are and are asked for.
     */
    method DequeueFrom(p: nat, max: nat, quiet: bool) returns (out: seq<X>, ghost first: nat)
      requires Valid() && p < |subs| && max >= 1 && (quiet ==> Quiet(subs))
      modifies this`subs
      ensures Valid() && AllLater(old(subs), subs) && |out| <= max
      ensures out == [] ==> Missed(old(subs)[p], subs[p])
      ensures out != [] ==>
        && old(subs)[p].tickets.head <= first && first + |out| <= subs[p].tickets.head <= |subs[p].items|
        && out == subs[p].items[first..first + |out|] && T.Claim(me, first, |out|) in subs[p].tickets.claims
      ensures quiet ==>
        && Quiet(subs) && (forall q: nat :: q < |subs| && q != p ==> subs[q] == old(subs)[q])
        && |out| == (if |Left(old(subs)[p])| < max then |Left(old(subs)[p])| else max)
        && out == Left(old(subs)[p])[..|out|] && Left(subs[p]) == Left(old(subs)[p])[|out|..]
    {
      hide T.Inv, T.StepOf, Underway, Quiet, T.Solo;
      ghost var a := subs[p];
      assert SubOk(a, threads);
      Begin(p, max);
      ghost var s1 := subs[p].tickets;
      ghost var n: nat := 0;
      out, first := [], 0;
      SoloZero(s1, me);
      while !subs[p].tickets.pcs[me].Idle?
        invariant In(p) && p < |subs| && AllLater(old(subs), subs) && me < |subs[p].tickets.pcs|
        invariant out == [] ==> Underway(a.tickets, subs[p].tickets, me, max)
        invariant out != [] ==> subs[p].tickets.pcs[me].Idle? && HandedRange(a, subs[p], me, first, out, max)
        invariant quiet ==> T.Inv(s1) && subs[p].tickets == T.Solo(s1, me, n) && subs[p].items == a.items
        invariant quiet ==> forall q: nat :: q < |subs| && q != p ==> subs[q] == old(subs)[q]
        invariant quiet ==> ClaimsSo(a.tickets, subs[p].tickets, me, first, out)
        decreases Rank(subs[p].tickets.pcs[me])
      {
        ghost var before := subs;
        Others(quiet, p);
        AllLaterChains(old(subs), before, subs);
        UnderwayStays(a.tickets, before[p].tickets, subs[p].tickets, me, max);
        ghost var s2 := subs;
        ghost var pc := subs[p].tickets.pcs[me];
        assert Later(a, subs[p]);
        if pc.Reading? {
          ReadingIsNew(a.tickets, subs[p].tickets, me, max);
        }
        out := Advance(p, max, a);
        AllLaterChains(old(subs), s2, subs);
        if pc.Reading? {
          first := pc.first;
          assert HandedRange(a, subs[p], me, first, out, max);
        }
        if quiet {
          SoloNext(s1, me, n);
        }
        n := n + 1;
      }
      IdleIsMissed(a, subs[p], me, max, out);
      if quiet {
        QuietEnd(old(subs), subs, p, me, max, n, first, out);
      }
    }

    /** size_approx of one sub-queue: the tail is loaded, then the head. */
    method SizeApprox(p: nat, quiet: bool) returns (size: nat)
      requires Valid() && p < |subs|
      modifies this`subs
      ensures Valid() && AllLater(old(subs), subs) && (quiet ==> subs == old(subs) && size == |Left(subs[p])|)
      ensures size == 0 ==> Missed(old(subs)[p], subs[p])
    {
      assert SubOk(subs[p], threads);
      var tail := subs[p].tickets.tail;
      Others(quiet, |subs|);
      assert SubOk(subs[p], threads) && Later(old(subs)[p], subs[p]);
      var head := subs[p].tickets.head;
      size := if head < tail then tail - head else 0;
    }

    // ---------- without a token ----------

    /** The first look: the largest of the first three sub-queues that seem not to be empty. */
    method Best(quiet: bool) returns (best: Option<nat>)
      requires Valid()
      modifies this`subs
      ensures Valid() && AllLater(old(subs), subs) && (quiet ==> subs == old(subs))
      ensures best.None? ==> forall p: nat :: p < |subs| ==> Missed(old(subs)[p], subs[p])
      ensures best.None? && quiet ==> AllEmpty(Lefts(subs))
      ensures best.Some? ==> best.value < |subs| && (quiet ==> Left(subs[best.value]) != [] && IsBest(Lefts(subs), best.value))
    {
      hide Missed, SubOk, Later, Left;
      best := None;
      AllLaterAtOnce(subs);
      var nonEmptyCount, bestSize := 0, 0;
      var p: nat := |subs|;
      while nonEmptyCount < 3 && p > 0
        invariant Valid() && p <= |subs| && AllLater(old(subs), subs) && (quiet ==> subs == old(subs))
        invariant (nonEmptyCount == 0 <==> best == None) && (best == None ==> bestSize == 0)
        invariant best == None ==> forall q: nat :: p <= q < |subs| ==> Missed(old(subs)[q], subs[q])
        invariant best == None && quiet ==> forall q: nat :: p <= q < |subs| ==> Left(subs[q]) == []
        invariant best.Some? ==> best.value < |subs| && (quiet ==> Left(subs[best.value]) != [])
        invariant quiet ==> NonEmpty(Lefts(subs), p) == nonEmptyCount <= 3
        invariant quiet && best.Some? ==> LargestFrom(Lefts(subs), p, best.value) && bestSize == |Left(subs[best.value])|
        decreases p
      {
        ghost var before := subs;
        p := p - 1;
        var size := SizeApprox(p, quiet);
        AllLaterChains(old(subs), before, subs);
        MissedOnes(old(subs), before, subs);
        if size > 0 {
          if size > bestSize {
            bestSize := size;
            best := Some(p);
          }
          nonEmptyCount := nonEmptyCount + 1;
        }
      }
    }

    /** One dequeue of a try_dequeue, and what it means for the whole. */
    method Try(p: nat, quiet: bool, ghost start: seq<Sub<X>>) returns (r: Option<X>)
      requires Valid() && p < |subs| && (quiet ==> Quiet(subs)) && AllLater(start, subs)
      modifies this`subs
      ensures Valid() && AllLater(old(subs), subs) && AllLater(start, subs) && (quiet ==> Quiet(subs))
      ensures if r.None? then Missed(start[p], subs[p]) else HandedFrom(start, subs, me, p, r.value)
      ensures forall q: nat :: q < |subs| && Missed(start[q], old(subs)[q]) ==> Missed(start[q], subs[q])
      ensures quiet && r.None? ==> Left(old(subs)[p]) == [] && Lefts(subs) == Lefts(old(subs))
      ensures quiet && r.Some? ==> TookAt(Lefts(old(subs)), Lefts(subs), p, r.value)
    {
      hide SubOk, Quiet, Left;
      ghost var before := subs;
      ghost var first;
      var out;
      out, first := DequeueFrom(p, 1, quiet);
      AllLaterChains(start, before, subs);
      MissedOnes(start, before, subs);
      assert Later(start[p], before[p]);
      if out == [] {
        r := None;
        MissedEarlier(start[p], before[p], subs[p]);
      } else {
        r := Some(out[0]);
        assert HandedAt(start, subs, me, p, first, out[0]);
      }
    }

    /**
     When it fails: of the elements each sub-queue had at the call, at most as many are left as other dequeues have under
     way, or have lost and returned meanwhile. With no other operation in progress it fails exactly when all are empty.
     */
    method TryDequeue(quiet: bool) returns (r: Option<X>)
      requires Valid() && (quiet ==> Quiet(subs))
      modifies this`subs
      ensures Valid() && AllLater(old(subs), subs) && (quiet ==> Quiet(subs))
      ensures if r.None? then forall p: nat :: p < |subs| ==> LeftBehind(old(subs)[p], subs[p]) else Handed(old(subs), subs, me, r.value)
      ensures quiet ==> (r.None? <==> AllEmpty(Lefts(old(subs))))
      ensures quiet && r.Some? ==>
                exists p: nat :: IsBest(Lefts(old(subs)), p) && TookAt(Lefts(old(subs)), Lefts(subs), p, r.value)
    {
      hide SubOk, Quiet, Missed, Left, HandedFrom, IsBest;
      var best := Best(quiet);
      if best.Some? {
        ghost var start := old(subs);
        r := Try(best.value, quiet, start);
        if r.Some? {
          return;
        }
        assert quiet ==> false;
        var p: nat := |subs|;
        while p > 0
          invariant Valid() && p <= |subs| && AllLater(start, subs) && best.value < |subs| && !quiet
          invariant Missed(start[best.value], subs[best.value])
          invariant forall q: nat :: p <= q < |subs| ==> Missed(start[q], subs[q])
        {
          p := p - 1;
          if p != best.value {
            r := Try(p, quiet, start);
            if r.Some? {
              return;
            }
          }
        }
      }
      r := None;
      AllLeftBehind(old(subs), subs, threads);
    }

    /** As many as there are, and are asked for, in the order of the list. */
    method TryDequeueBulk(max: nat) returns (out: seq<X>)
      requires Valid() && Quiet(subs) && max >= 1
      modifies this`subs
      ensures Valid() && Quiet(subs) && AllLater(old(subs), subs)
      ensures var left := All(Lefts(old(subs)));
        out + All(Lefts(subs)) == left && |out| == (if |left| < max then |left| else max)
    {
      hide SubOk, Quiet, Left, Later;
      out := [];
      AllLaterAtOnce(subs);
      var p: nat := |subs|;
      assert Lefts(subs)[..p] == Lefts(subs);
      while p > 0
        invariant Valid() && Quiet(subs) && AllLater(old(subs), subs) && p <= |subs| && |out| < max
        invariant forall q :: p <= q < |subs| ==> Left(subs[q]) == []
        invariant out + All(Lefts(subs)[..p]) == All(Lefts(old(subs)))
        decreases p
      {
        p := p - 1;
        ghost var before := subs;
        var got, first := DequeueFrom(p, max - |out|, true);
        AllLaterChains(old(subs), before, subs);
        assert Lefts(subs) == Lefts(before)[p := Lefts(before)[p][|got|..]];
        BulkStep(Lefts(before), Lefts(subs), p, out, got);
        out := out + got;
        if |out| == max {
          return;
        }
      }
      AllOfEmptied(Lefts(subs), 0);
    }

    // ---------- with a token ----------

    /**
     update_current_producer_after_rotation: a new token starts at producer number initialOffset modulo their number;
     then it goes back as many producers as the global offset has moved.
     */
    method Rotate(token: Token) returns (ok: bool)
      requires token.Valid(|subs|)
      modifies token
      ensures ok <==> subs != []
      ensures token.initialOffset == old(token.initialOffset)
      ensures !ok ==> token.desiredProducer == None && token.Valid(|subs|)
      ensures ok ==>
        var n := |subs|;
        var start := if old(token.desiredProducer).None? then old(token.initialOffset) % n else old(token.desiredProducer).value;
        && token.desiredProducer == Some(Back(start, Delta(globalOffset, old(token.lastKnownGlobalOffset)), n))
        && token.currentProducer == token.desiredProducer && token.Valid(n)
        && token.lastKnownGlobalOffset == globalOffset && token.itemsConsumedFromCurrent == 0
    {
      if token.desiredProducer.None? && subs == [] {
        return false;
      }
      hide Back, Next;
      var n := |subs|;
      var p;
      if token.desiredProducer.None? {
        p := GoBack(n - 1, n - 1 - token.initialOffset % n, n);
        FirstProducer(token.initialOffset, n);
      } else {
        p := token.desiredProducer.value;
      }
      var delta := Delta(globalOffset, token.lastKnownGlobalOffset);
      BackByRemainder(p, delta, n);
      if delta >= n {
        delta := delta % n;
      }
      p := GoBack(p, delta, n);
      token.desiredProducer, token.currentProducer := Some(p), Some(p);
      token.lastKnownGlobalOffset, token.itemsConsumedFromCurrent := globalOffset, 0;
      ok := true;
    }

    /** The token's rotation is up to date. */
    method Refresh(token: Token) returns (ok: bool)
      requires token.Valid(|subs|)
      modifies token
      ensures token.Valid(|subs|) && (ok <==> subs != []) && (ok ==> token.currentProducer.Some? && token.desiredProducer.Some?)
      ensures token.initialOffset == old(token.initialOffset)
      ensures ok ==> token.Where() == Begins(old(token.Where()), token.initialOffset, globalOffset, |subs|)
    {
      hide Back;
      ok := true;
      if token.desiredProducer.None? || token.lastKnownGlobalOffset != globalOffset {
        ok := Rotate(token);
      }
    }

    /**
     The token begins where rotations have brought it, or where it was, and goes round from there. When it fails, it has been
     to every other producer exactly once, and of the elements each sub-queue had at the call at most as many are left as other
     dequeues have under way, or have lost and returned meanwhile. With no other operation in progress it fails exactly when
     all are empty, and else takes the first element of the first producer of its walk, the `steps`-th, that has one.
     */
    method TryDequeueToken(token: Token, quiet: bool) returns (r: Option<X>, ghost steps: nat, ghost visited: seq<nat>)
      requires Valid() && token.Valid(|subs|) && (quiet ==> Quiet(subs))
      modifies this, token
      ensures Valid() && token.Valid(|subs|) && AllLater(old(subs), subs) && (quiet ==> Quiet(subs))
      ensures if r.None? then forall p: nat :: p < |subs| ==> LeftBehind(old(subs)[p], subs[p]) else Handed(old(subs), subs, me, r.value)
      ensures quiet ==> (r.None? <==> AllEmpty(Lefts(old(subs))))
      ensures |subs| == |old(subs)| && token.initialOffset == old(token.initialOffset) && (subs == [] ==> r.None?)
      ensures subs != [] ==>
                var n, begun := |subs|, Begins(old(token.Where()), token.initialOffset, old(globalOffset), |old(subs)|);
                var from := Back(begun.current.value, steps, n);
                && begun.current.Some? && begun.current.value < n
                && (r.None? ==> VisitsOthers(visited, begun.current.value, n) && token.Where() == begun)
                && (r.Some? ==> steps < n && HandedFrom(old(subs), subs, me, from, r.value))
                && (r.Some? ==> token.Where() == if steps == 0 then begun.(consumed := begun.consumed + 1)
                                                 else begun.(current := Some(from), consumed := 1))
                && globalOffset == (if r.Some? && steps == 0 && begun.consumed + 1 == QUOTA then (old(globalOffset) + 1) % WORD
                                    else old(globalOffset))
                && (quiet && r.Some? ==>
                      && TookAt(Lefts(old(subs)), Lefts(subs), from, r.value)
                      && forall k: nat :: k < steps ==> Left(old(subs)[Back(begun.current.value, k, n)]) == [])
    {
      hide Back, Next, SubOk, Quiet, Missed, Left, HandedFrom, Begins;
      visited, steps := [], 0;
      ghost var start := subs;
      AllLaterAtOnce(subs);
      var ok := Refresh(token);
      if !ok {
        return None, 0, [];
      }
      var current, n := token.currentProducer.value, |subs|;
      BackAtOnce(current, n);
      r := Try(current, quiet, start);
      if r.Some? {
        token.itemsConsumedFromCurrent := token.itemsConsumedFromCurrent + 1;
        if token.itemsConsumedFromCurrent == QUOTA {
          globalOffset := (globalOffset + 1) % WORD;
        }
        return;
      }
      r, steps, visited := WalkToken(token, current, quiet, start);
    }

    /** The loop after the current producer has given nothing. */
    method WalkToken(token: Token, current: nat, quiet: bool, ghost start: seq<Sub<X>>)
      returns (r: Option<X>, ghost steps: nat, ghost visited: seq<nat>)
      requires Valid() && token.Valid(|subs|) && token.currentProducer == Some(current) && current < |subs|
      requires AllLater(start, subs) && Missed(start[current], subs[current])
      requires quiet ==> Quiet(subs) && Lefts(subs) == Lefts(start) && Left(start[current]) == []
      modifies this`subs, token`currentProducer, token`itemsConsumedFromCurrent
      ensures Valid() && token.Valid(|subs|) && AllLater(start, subs) && (quiet ==> Quiet(subs)) && |subs| == |old(subs)|
      ensures r.None? ==> forall p: nat :: p < |subs| ==> LeftBehind(start[p], subs[p])
      ensures quiet && r.None? ==> forall p: nat :: p < |subs| ==> Left(start[p]) == []
      ensures r.None? ==> token.Where() == old(token.Where()) && VisitsOthers(visited, current, |subs|)
      ensures r.Some? ==>
                var from := Back(current, steps, |subs|);
                && 0 < steps < |subs| && HandedFrom(start, subs, me, from, r.value)
                && token.Where() == old(token.Where()).(current := Some(from), consumed := 1)
                && (quiet ==>
                      && TookAt(Lefts(start), Lefts(subs), from, r.value)
                      && forall k: nat :: k < steps ==> Left(start[Back(current, k, |subs|)]) == [])
    {
      hide Back, Next, SubOk, Quiet, Missed, Left, HandedFrom, VisitsOthers, TookAt;
      var n := |subs|;
      visited, steps := [], 1;
      BackAtOnce(current, n);
      NextIsBack(current, 0, n);
      var ptr := Next(current, n);
      while ptr != current
        invariant Valid() && token.Valid(n) && token.Where() == old(token.Where()) && |subs| == n && 1 <= steps <= n
        invariant AllLater(start, subs) && ptr == Back(current, steps, n) && Back(current, n, n) == current
        invariant quiet ==> Quiet(subs) && Lefts(subs) == Lefts(start)
        invariant |visited| == steps - 1 && forall k :: 0 <= k < steps - 1 ==> visited[k] == Back(current, k + 1, n)
        invariant forall k: nat :: k < steps ==> Missed(start[Back(current, k, n)], subs[Back(current, k, n)])
        invariant quiet ==> forall k: nat :: k < steps ==> Left(start[Back(current, k, n)]) == []
        decreases n - steps
      {
        ghost var before := subs;
        assert steps < n;
        r := Try(ptr, quiet, start);
        if r.Some? {
          token.currentProducer, token.itemsConsumedFromCurrent := Some(ptr), 1;
          return;
        }
        assert quiet ==> Left(start[ptr]) == Left(before[ptr]) by {
          assert Lefts(start)[ptr] == Left(start[ptr]) && Lefts(before)[ptr] == Left(before[ptr]);
        }
        visited := visited + [ptr];
        NextIsBack(current, steps, n);
        ptr := Next(ptr, n);
        steps := steps + 1;
      }
      WalkEnds(current, steps, n);
      WholeWalk(visited, current, n);
      forall p: nat | p < n ensures Missed(start[p], subs[p]) && (quiet ==> Left(start[p]) == []) {
        var k := BackReaches(current, p, n);
      }
      AllLeftBehind(start, subs, threads);
      r := None;
    }

    /** A bulk dequeue from one sub-queue, and what it does to the whole. */
    method TakeBulk(p: nat, max: nat) returns (got: seq<X>)
      requires Valid() && Quiet(subs) && p < |subs| && max >= 1
      modifies this`subs
      ensures Valid() && Quiet(subs) && AllLater(old(subs), subs)
      ensures |got| + Total(Lefts(subs)) == Total(Lefts(old(subs)))
      ensures |got| == (if |Left(old(subs)[p])| < max then |Left(old(subs)[p])| else max) && (|got| < max ==> Left(subs[p]) == [])
      ensures got == Left(old(subs)[p])[..|got|] && Left(subs[p]) == Left(old(subs)[p])[|got|..]
      ensures forall q: nat :: q < |subs| && q != p ==> Left(subs[q]) == Left(old(subs)[q])
      ensures GaveAt(Lefts(old(subs)), Lefts(subs), p, got) && (|got| < max ==> Lefts(subs)[p] == [])
    {
      hide SubOk, Quiet, Left;
      ghost var first;
      got, first := DequeueFrom(p, max, true);
      assert Lefts(subs) == Lefts(old(subs))[p := Left(subs[p])];
      assert got + Left(subs[p]) == Left(old(subs)[p]);
      TotalUpdate(Lefts(old(subs)), p, Left(subs[p]));
    }

    /** One producer of the walk: the j-th from c. */
    method WalkOne(token: Token, ptr: nat, max: nat, ghost before: seq<seq<X>>, ghost c: nat, ghost j: nat, ghost last0: nat,
                   ghost out: seq<X>)
      returns (got: seq<X>, ghost last: nat)
      requires Valid() && Quiet(subs) && token.Valid(|subs|) && token.currentProducer.Some? && max > 0
      requires c < |subs| && last0 < j < last0 + |subs| && ptr == Back(c, j, |subs|)
      requires Walking(before, Lefts(subs), c, j, last0, out) && FromFronts(before, Lefts(subs))
      modifies this`subs, token`currentProducer, token`itemsConsumedFromCurrent
      ensures Valid() && Quiet(subs) && token.Valid(|subs|) && AllLater(old(subs), subs) && |subs| == |old(subs)| == |before|
      ensures |got| <= max && |got| + Total(Lefts(subs)) == Total(Lefts(old(subs))) && FromFronts(before, Lefts(subs))
      ensures token.Where() == if got == [] then old(token.Where()) else old(token.Where()).(current := Some(ptr), consumed := |got|)
      ensures last == (if got == [] then last0 else j) && (got != [] ==> last < |subs|)
      ensures |got| < max ==> Walking(before, Lefts(subs), c, j + 1, last, out + got) && (got != [] ==> |got| == |before[ptr]|)
      ensures |got| == max ==>
                && WalkedOff(before, Lefts(subs), c, out + got) && EndsAt(before, Lefts(subs), c, last)
                && Lefts(subs)[c] == [] && Gave(before, Lefts(subs), ptr) == |got|
    {
      hide Back, AllLater, Total, SubOk, Quiet, Left, Lefts, Upto, WalkedOff, EndsAt, FromFronts, GaveAt, Walking;
      ghost var subs1 := subs;
      WalkingSize(before, Lefts(subs), c, j, last0, out);
      got := TakeBulk(ptr, max);
      SameNumber(subs1, subs);
      GaveFromFronts(Lefts(subs1), Lefts(subs), ptr, got);
      FromFrontsChains(before, Lefts(subs1), Lefts(subs));
      WalkingOn(before, Lefts(subs1), Lefts(subs), c, j, last0, out, got);
      last := if got == [] then last0 else j;
      if |got| != 0 {
        token.currentProducer, token.itemsConsumedFromCurrent := Some(ptr), |got|;
      }
    }

    /**
     The loop after the current producer, c, has given all it had and less than was asked for. The last that gives something,
     the `last`-th of the walk, becomes the current one, and the walk is over when it is back there.
     */
    method WalkBulk(token: Token, max0: nat, ghost c: nat) returns (out: seq<X>, ghost last: nat)
      requires Valid() && Quiet(subs) && token.Valid(|subs|) && token.currentProducer == Some(c) && c < |subs|
      requires max0 > 0 && Lefts(subs)[c] == []
      modifies this`subs, token`currentProducer, token`itemsConsumedFromCurrent
      ensures Valid() && Quiet(subs) && token.Valid(|subs|) && AllLater(old(subs), subs)
      ensures |out| + Total(Lefts(subs)) == Total(Lefts(old(subs)))
      ensures |out| == if Total(Lefts(old(subs))) < max0 then Total(Lefts(old(subs))) else max0
      ensures FromFronts(Lefts(old(subs)), Lefts(subs)) && Lefts(subs)[c] == []
      ensures WalkedOff(Lefts(old(subs)), Lefts(subs), c, out)
      ensures EndsAt(Lefts(old(subs)), Lefts(subs), c, last)
      ensures token.Where() == if last == 0 then old(token.Where())
                               else old(token.Where()).(current := Some(Back(c, last, |subs|)),
                                                        consumed := Gave(Lefts(old(subs)), Lefts(subs), Back(c, last, |subs|)))
    {
      hide Back, Next, AllLater, Total, SubOk, Quiet, Left, Lefts, Upto, WalkedOff, EndsAt, Walking, FromFronts, GaveAt;
      AllLaterAtOnce(subs);
      SameNumber(subs, subs);
      out, last := [], 0;
      var max, n := max0, |subs|;
      ghost var before, j: nat := Lefts(subs), 1;
      BackAtOnce(c, n);
      NextIsBack(c, 0, n);
      UptoStarts(before, c);
      var ptr := Next(token.currentProducer.value, n);
      while Some(ptr) != token.currentProducer
        invariant Valid() && Quiet(subs) && token.Valid(n) && AllLater(old(subs), subs) && |subs| == n && max > 0 && |out| + max == max0
        invariant |out| + Total(Lefts(subs)) == Total(before)
        invariant last < j <= last + n && last < n && ptr == Back(c, j, n) && token.currentProducer == Some(Back(c, last, n))
        invariant Walking(before, Lefts(subs), c, j, last, out) && FromFronts(before, Lefts(subs))
        invariant token.Where() == if last == 0 then old(token.Where())
                                   else old(token.Where()).(current := Some(Back(c, last, n)), consumed := |before[Back(c, last, n)]|)
        decreases max, last + n - j
      {
        ghost var subs1 := subs;
        BackIsAgain(c, last, j, n);
        var got;
        got, last := WalkOne(token, ptr, max, before, c, j, last, out);
        AllLaterChains(old(subs), subs1, subs);
        SameNumber(subs1, subs);
        out := out + got;
        if |got| == max {
          return;
        }
        max := max - |got|;
        NextIsBack(c, j, n);
        ptr := Next(ptr, n);
        j := j + 1;
      }
      BackIsAgain(c, last, j, n);
      WalkingEnds(before, Lefts(subs), c, j, last, out);
      WalkingFinished(before, Lefts(subs), c, j, last, out);
    }

    /**
     The walk starts again whenever a producer has given something; it still ends, and gets as many as there are and are
     asked for, in the order of the walk.
     */
    method TryDequeueBulkToken(token: Token, max: nat) returns (out: seq<X>, ghost last: nat)
      requires Valid() && Quiet(subs) && token.Valid(|subs|) && max >= 1
      modifies this, token
      ensures Valid() && Quiet(subs) && token.Valid(|subs|) && AllLater(old(subs), subs)
      ensures |out| + Total(Lefts(subs)) == Total(Lefts(old(subs)))
      ensures |out| == if Total(Lefts(old(subs))) < max then Total(Lefts(old(subs))) else max
      ensures |subs| == |old(subs)| && token.initialOffset == old(token.initialOffset) && (subs == [] ==> out == [])
      ensures subs != [] ==>
                var n, begun := |subs|, Begins(old(token.Where()), token.initialOffset, old(globalOffset), |old(subs)|);
                && begun.current.Some? && begun.current.value < n
                && var c := begun.current.value;
                var gave := Gave(Lefts(old(subs)), Lefts(subs), c);
                && FromFronts(Lefts(old(subs)), Lefts(subs))
                && WalkedOff(Lefts(old(subs)), Lefts(subs), c, out) && EndsAt(Lefts(old(subs)), Lefts(subs), c, last)
                && token.Where() == (if last == 0 then begun.(consumed := begun.consumed + gave)
                                     else begun.(current := Some(Back(c, last, n)),
                                                 consumed := Gave(Lefts(old(subs)), Lefts(subs), Back(c, last, n))))
                && globalOffset == (if gave == max && begun.consumed + max >= QUOTA then (old(globalOffset) + 1) % WORD
                                    else old(globalOffset))
    {
      hide AllLater, Total, SubOk, Quiet, Left, Lefts, Begins, Back, Upto, WalkedOff, EndsAt, FromFronts, GaveAt;
      AllLaterAtOnce(subs);
      TotalOfEmpty(Lefts(subs));
      ghost var s0 := subs;
      var ok := Refresh(token);
      if !ok {
        return [], 0;
      }
      var current := token.currentProducer.value;
      var got := TakeBulk(current, max);
      SameNumber(s0, subs);
      GaveFromFronts(Lefts(s0), Lefts(subs), current, got);
      out, last := got, 0;
      token.itemsConsumedFromCurrent := token.itemsConsumedFromCurrent + |got|;
      if |got| == max {
        FirstGives(Lefts(s0), Lefts(subs), current, got);
        if token.itemsConsumedFromCurrent >= QUOTA {
          globalOffset := (globalOffset + 1) % WORD;
        }
        return;
      }
      ghost var s1 := subs;
      SameNumber(s0, s1);
      out, last := WalkBulk(token, max - |got|, current);
      AllLaterChains(s0, s1, subs);
      SameNumber(s1, subs);
      FromFrontsChains(Lefts(s0), Lefts(s1), Lefts(subs));
      FirstThenRest(Lefts(s0), Lefts(s1), Lefts(subs), current, got, out, last);
      out := got + out;
    }
  }
}
