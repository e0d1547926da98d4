/**
 How a block knows that all its elements have been dequeued.

 Small blocks of explicit producers keep a flag per element, in reverse order; other
 blocks count. Either way a block holds a set of emptied offsets, and the number a
 producer's model keeps for a block (modules ExplicitState, ImplicitState) is its size.
 */
module Emptiness {
  import opened BlockNumbers

  const EXPLICIT_BLOCK_EMPTY_COUNTER_THRESHOLD: nat := 32

  /** The offsets from lo up to hi. */
  function Offsets(lo: nat, hi: nat): (s: set<nat>)
    ensures forall o: nat :: o in s <==> lo <= o < hi
    decreases hi
  {
    if lo >= hi then {} else Offsets(lo, hi - 1) + {hi - 1}
  }

  lemma {:induction false} OffsetsCount(lo: nat, hi: nat)
    requires lo <= hi
    ensures |Offsets(lo, hi)| == hi - lo
    decreases hi
  {
    if lo < hi {
      OffsetsCount(lo, hi - 1);
    }
  }

  /** So many offsets are all of them. */
  lemma AllByCount(emptied: set<nat>, size: nat)
    requires emptied <= Offsets(0, size)
    ensures |emptied| <= size && (|emptied| == size <==> emptied == Offsets(0, size))
  {
    OffsetsCount(0, size);
    var rest := Offsets(0, size) - emptied;
    assert Offsets(0, size) == emptied + rest;
    if rest == {} {
      assert emptied == Offsets(0, size);
    } else {
      var o :| o in rest;
      assert o !in emptied;
    }
  }

  lemma AddRange(emptied: set<nat>, lo: nat, hi: nat, size: nat)
    requires lo <= hi <= size && emptied <= Offsets(0, size) && emptied !! Offsets(lo, hi)
    ensures emptied + Offsets(lo, hi) <= Offsets(0, size) && |emptied + Offsets(lo, hi)| == |emptied| + hi - lo
  {
    hide Offsets;
    OffsetsCount(lo, hi);
  }

  // ---------- as the sub-queues see it ----------

  /** The offsets of block number k whose elements have been read. */
  ghost function Emptied<X>(got: map<nat, X>, k: nat, size: nat): set<nat> {
    set o | o in Offsets(0, size) && Base(k, size) + o in got
  }

  /** Reading the indices from i up to end, all of block n, adds so many to that block, and none to another. */
  lemma EmptiedGrows<X>(got: map<nat, X>, read: map<nat, X>, i: nat, end: nat, n: nat, k: nat, size: nat)
    requires size > 0 && Base(n, size) <= i <= end <= Base(n, size) + size
    requires forall m: nat :: m in read <==> i <= m < end
    requires forall m: nat :: m in read ==> m !in got
    ensures |Emptied(got + read, k, size)| == |Emptied(got, k, size)| + (if k == n then end - i else 0)
  {
    hide Offsets;
    if k == n {
      var lo, hi: nat := i - Base(n, size), end - Base(n, size);
      forall o ensures o in Emptied(got + read, k, size) <==> o in Emptied(got, k, size) + Offsets(lo, hi) {
      }
      assert Emptied(got + read, k, size) == Emptied(got, k, size) + Offsets(lo, hi);
      AddRange(Emptied(got, k, size), lo, hi, size);
    } else {
      forall o ensures o in Emptied(got + read, k, size) <==> o in Emptied(got, k, size) {
        if o in Offsets(0, size) && Base(k, size) + o in read {
          NumberUnique(Base(k, size) + o, k, size);
          NumberUnique(Base(k, size) + o, n, size);
        }
      }
      assert Emptied(got + read, k, size) == Emptied(got, k, size);
    }
  }

  /** A block none of whose indices has been read. */
  lemma NothingEmptied<X>(got: map<nat, X>, head: nat, k: nat, size: nat)
    requires head <= Base(k, size) && forall i :: i in got ==> i < head
    ensures Emptied(got, k, size) == {}
  {
  }

  class Block {
    const size: nat              // BLOCK_SIZE
    const flagged: bool          // whether flags are used: an explicit producer's small block
    const emptyFlags: array<bool>
    var elementsCompletelyDequeued: nat
    ghost var emptied: set<nat>

    /** The flag of offset o is number size - 1 - o. */
    ghost predicate FlagsMatch()
      reads this, emptyFlags
    {
      emptyFlags.Length == size && forall k: nat :: k < size ==> (emptyFlags[k] <==> size - 1 - k in emptied)
    }

    ghost predicate Valid()
      reads this, emptyFlags
    {
      && size > 0 && emptied <= Offsets(0, size)
      && (if flagged then FlagsMatch() else elementsCompletelyDequeued == |emptied|)
    }

    /** A new block: nothing of it has been dequeued. */
    constructor (size: nat, explicit: bool)
      requires size > 0
      ensures Valid() && fresh(emptyFlags) && emptied == {} && this.size == size
      ensures flagged <==> explicit && size <= EXPLICIT_BLOCK_EMPTY_COUNTER_THRESHOLD
    {
      this.size := size;
      flagged := explicit && size <= EXPLICIT_BLOCK_EMPTY_COUNTER_THRESHOLD;
      emptyFlags := new bool[if explicit && size <= EXPLICIT_BLOCK_EMPTY_COUNTER_THRESHOLD then size else 1](_ => false);
      elementsCompletelyDequeued := 0;
      emptied := {};
    }

    /** Other consumers finish elements. */
    method Others()
      requires Valid() && flagged
      modifies `emptied, emptyFlags
      ensures Valid() && old(emptied) <= emptied
      ensures forall k :: 0 <= k < emptyFlags.Length && old(emptyFlags[k]) ==> emptyFlags[k]
    {
      var more: set<nat> := *;
      forall k | 0 <= k < emptyFlags.Length {
        emptyFlags[k] := emptyFlags[k] || size - 1 - k in more;
      }
      emptied := emptied + (more * Offsets(0, size));
    }

    /**
     Whether every element has been dequeued, while consumers go on: yes if it was so at the call, and only if it is so
     at the return.
     */
    method IsEmpty() returns (empty: bool)
      requires Valid()
      modifies `emptied, emptyFlags
      ensures Valid() && old(emptied) <= emptied
      ensures old(emptied) == Offsets(0, size) ==> empty
      ensures empty ==> emptied == Offsets(0, size)
      ensures |old(emptied)| == size ==> empty
      ensures empty ==> |emptied| == size
    {
      AllByCount(emptied, size);
      if !flagged {
        return elementsCompletelyDequeued == size;
      }
      var i := 0;
      while i < size
        invariant i <= size && Valid() && old(emptied) <= emptied
        invariant forall k: nat :: k < i ==> emptyFlags[k]
      {
        Others();
        if !emptyFlags[i] {
          return false;
        }
        i := i + 1;
      }
      forall o | o in Offsets(0, size) ensures o in emptied {
        var k: nat := size - 1 - o;
        assert emptyFlags[k];
      }
      AllByCount(emptied, size);
      empty := true;
    }

    /** The element of index i has been dequeued, once; a counting block says whether it was the last. */
    method SetEmpty(i: nat) returns (last: bool)
      requires Valid() && Offset(i, size) !in emptied
      modifies this, emptyFlags
      ensures Valid() && emptied == old(emptied) + {Offset(i, size)} && |emptied| == |old(emptied)| + 1
      ensures last <==> !flagged && |emptied| == size
      ensures last ==> emptied == Offsets(0, size)
    {
      NumberBounds(i, size);
      AllByCount(emptied + {Offset(i, size)}, size);
      if flagged {
        emptyFlags[size - 1 - Offset(i, size)] := true;
        last := false;
      } else {
        last := elementsCompletelyDequeued == size - 1;
        elementsCompletelyDequeued := elementsCompletelyDequeued + 1;
      }
      emptied := emptied + {Offset(i, size)};
    }

    /** Set `count` flags from number first on. */
    method RaiseFlags(first: nat, count: nat)
      requires first + count <= emptyFlags.Length
      modifies emptyFlags
      ensures forall k :: 0 <= k < emptyFlags.Length ==> (emptyFlags[k] <==> old(emptyFlags[k]) || first <= k < first + count)
    {
      var j := 0;
      while j != count
        invariant j <= count
        invariant forall k :: 0 <= k < emptyFlags.Length ==> (emptyFlags[k] <==> old(emptyFlags[k]) || first <= k < first + j)
      {
        emptyFlags[first + j] := true;
        j := j + 1;
      }
    }

    /** So have the elements of `count` indices from i, all of this block. */
    method SetManyEmpty(i: nat, count: nat) returns (last: bool)
      requires Valid() && count > 0 && Offset(i, size) + count <= size
      requires emptied !! Offsets(Offset(i, size), Offset(i, size) + count)
      modifies this, emptyFlags
      ensures Valid() && emptied == old(emptied) + Offsets(Offset(i, size), Offset(i, size) + count)
      ensures |emptied| == |old(emptied)| + count
      ensures last <==> !flagged && |emptied| == size
      ensures last ==> emptied == Offsets(0, size)
    {
      hide Offsets, Offset;
      var offset := Offset(i, size);
      AddRange(emptied, offset, offset + count, size);
      emptied := emptied + Offsets(offset, offset + count);
      AllByCount(emptied, size);
      if flagged {
        RaiseFlags(size - 1 - offset - count + 1, count);
        last := false;
      } else {
        last := elementsCompletelyDequeued + count == size;
        elementsCompletelyDequeued := elementsCompletelyDequeued + count;
      }
    }

    /** A block injected by a bulk insertion counts as empty until it is used. */
    method SetAllEmpty()
      requires Valid()
      modifies this, emptyFlags
      ensures Valid() && emptied == Offsets(0, size) && |emptied| == size
    {
      AllByCount(Offsets(0, size), size);
      if flagged {
        var i := 0;
        while i != size
          invariant i <= size && unchanged(this) && forall k :: 0 <= k < i ==> emptyFlags[k]
        {
          emptyFlags[i] := true;
          i := i + 1;
        }
      } else {
        elementsCompletelyDequeued := size;
      }
      emptied := Offsets(0, size);
    }

    /** Before the block takes new elements. */
    method ResetEmpty()
      requires Valid()
      modifies this, emptyFlags
      ensures Valid() && emptied == {}
    {
      if flagged {
        var i := 0;
        while i != size
          invariant i <= size && unchanged(this) && forall k :: 0 <= k < i ==> !emptyFlags[k]
        {
          emptyFlags[i] := false;
          i := i + 1;
        }
      } else {
        elementsCompletelyDequeued := 0;
      }
      emptied := {};
    }
  }
}
