/**
 Sums of a natural-valued measure over a sequence.

 A step machine keeps one program counter per thread in a sequence, so "how many
 threads hold a reference to n" or "how many ticket units are undecided" is the sum
 of a measure over that sequence, and one step of one thread changes one summand.
 */
module Sums {

  ghost function Sum<P>(f: P -> nat, s: seq<P>): nat {
    if s == [] then 0 else Sum(f, s[..|s| - 1]) + f(s[|s| - 1])
  }

  lemma {:induction false} SumUpdate<P>(f: P -> nat, s: seq<P>, i: nat, x: P)
    requires i < |s|
    ensures Sum(f, s[i := x]) + f(s[i]) == Sum(f, s) + f(x)
  {
    var last := |s| - 1;
    if i == last {
      assert s[i := x][..last] == s[..last];
    } else {
      assert s[i := x][..last] == s[..last][i := x];
      SumUpdate(f, s[..last], i, x);
    }
  }

  lemma {:induction false} SumAtLeast<P>(f: P -> nat, s: seq<P>, i: nat)
    requires i < |s|
    ensures Sum(f, s) >= f(s[i])
  {
    if i < |s| - 1 {
      SumAtLeast(f, s[..|s| - 1], i);
    }
  }

  lemma {:induction false} SumAtLeastTwo<P>(f: P -> nat, s: seq<P>, i: nat, j: nat)
    requires i < |s| && j < |s| && i != j
    ensures Sum(f, s) >= f(s[i]) + f(s[j])
  {
    if i == |s| - 1 {
      SumAtLeast(f, s[..|s| - 1], j);
    } else if j == |s| - 1 {
      SumAtLeast(f, s[..|s| - 1], i);
    } else {
      SumAtLeastTwo(f, s[..|s| - 1], i, j);
    }
  }

  lemma {:induction false} SumZero<P>(f: P -> nat, s: seq<P>)
    requires forall i :: 0 <= i < |s| ==> f(s[i]) == 0
    ensures Sum(f, s) == 0
  {
    if s != [] {
      SumZero(f, s[..|s| - 1]);
    }
  }

  /** A positive sum has a positive summand. */
  lemma {:induction false} SumWitness<P>(f: P -> nat, s: seq<P>) returns (i: nat)
    requires Sum(f, s) > 0
    ensures i < |s| && f(s[i]) > 0
  {
    if f(s[|s| - 1]) > 0 {
      i := |s| - 1;
    } else {
      i := SumWitness(f, s[..|s| - 1]);
    }
  }

  lemma {:induction false} SumMonotone<P>(f: P -> nat, g: P -> nat, s: seq<P>)
    requires forall i :: 0 <= i < |s| ==> f(s[i]) <= g(s[i])
    ensures Sum(f, s) <= Sum(g, s)
  {
    if s != [] {
      SumMonotone(f, g, s[..|s| - 1]);
    }
  }

  /** The measure that counts every element once. */
  ghost function One<P>(): P -> nat {
    _ => 1
  }

  lemma {:induction false} SumOfOnes<P>(s: seq<P>)
    ensures Sum(One(), s) == |s|
  {
    if s != [] {
      SumOfOnes(s[..|s| - 1]);
    }
  }

  lemma {:induction false} SumSplit<P>(f: P -> nat, s: seq<P>, r: seq<P>)
    ensures Sum(f, s + r) == Sum(f, s) + Sum(f, r)
  {
    if r == [] {
      assert s + r == s;
    } else {
      assert (s + r)[..|s + r| - 1] == s + r[..|r| - 1];
      SumSplit(f, s, r[..|r| - 1]);
    }
  }

  function Repeat<P>(x: P, n: nat): (s: seq<P>)
    ensures |s| == n && forall i :: 0 <= i < n ==> s[i] == x
  {
    seq(n, _ => x)
  }

  lemma {:induction false} SumRepeat<P>(f: P -> nat, x: P, n: nat)
    ensures f(x) == 0 ==> Sum(f, Repeat(x, n)) == 0
    ensures f(x) == 1 ==> Sum(f, Repeat(x, n)) == n
  {
    if n > 0 {
      assert Repeat(x, n)[..n - 1] == Repeat(x, n - 1);
      SumRepeat(f, x, n - 1);
    }
  }

  /** A sum over a prefix is at most the sum over the whole. */
  lemma SumPrefix<P>(f: P -> nat, s: seq<P>, k: nat)
    requires k <= |s|
    ensures Sum(f, s[..k]) <= Sum(f, s)
  {
    assert s == s[..k] + s[k..];
    SumSplit(f, s[..k], s[k..]);
  }

  /** Pointwise comparison of two measures of two sequences, with the slack at one place. */
  lemma {:induction false} SumCompare<P, Q>(f: P -> nat, s: seq<P>, g: Q -> nat, r: seq<Q>)
    requires |s| == |r|
    requires forall i :: 0 <= i < |s| ==> f(s[i]) <= g(r[i])
    ensures Sum(f, s) <= Sum(g, r)
  {
    if s != [] {
      SumCompare(f, s[..|s| - 1], g, r[..|r| - 1]);
    }
  }

  lemma {:induction false} SumSlack<P>(f: P -> nat, g: P -> nat, s: seq<P>, t: nat)
    requires t < |s|
    requires forall i :: 0 <= i < |s| ==> f(s[i]) <= g(s[i])
    ensures Sum(f, s) + g(s[t]) <= Sum(g, s) + f(s[t])
  {
    if t == |s| - 1 {
      SumMonotone(f, g, s[..t]);
    } else {
      SumSlack(f, g, s[..|s| - 1], t);
    }
  }

  lemma {:induction false} SumAdd<P>(f: P -> nat, g: P -> nat, h: P -> nat, s: seq<P>)
    requires forall i :: 0 <= i < |s| ==> h(s[i]) == f(s[i]) + g(s[i])
    ensures Sum(h, s) == Sum(f, s) + Sum(g, s)
  {
    if s != [] {
      SumAdd(f, g, h, s[..|s| - 1]);
    }
  }

  lemma SumSingle<P>(f: P -> nat, s: seq<P>)
    requires |s| == 1
    ensures Sum(f, s) == f(s[0])
  {
    assert s[..|s| - 1] == [];
  }
}
