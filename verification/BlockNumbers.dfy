/**
 Indices and blocks: element i of a sub-queue is at offset Offset(i) of block Number(i).

 Number and Base are the quotient by the block size and the multiple of it, written by
 recursion so that everything said about them is linear.
 */
module BlockNumbers {
  import opened Remainders
  import Circular

  /** The first index of block number k. */
  function Base(k: nat, size: nat): nat {
    if k == 0 then 0 else Base(k - 1, size) + size
  }

  /** The block number of index i. */
  function Number(i: nat, size: nat): nat
    requires size > 0
  {
    if i < size then 0 else 1 + Number(i - size, size)
  }

  lemma {:induction false} BaseIsMultiple(k: nat, size: nat)
    ensures Base(k, size) == k * size
  {
    if k > 0 {
      BaseIsMultiple(k - 1, size);
      MulDistributes(k - 1, 1, size);
    }
  }

  lemma {:induction false} BaseStep(k: nat, size: nat)
    ensures Base(k + 1, size) == Base(k, size) + size
  {
  }

  lemma {:induction false} BaseMonotone(k: nat, m: nat, size: nat)
    requires k < m
    ensures Base(k, size) + size <= Base(m, size)
  {
    if k + 1 < m {
      BaseMonotone(k, m - 1, size);
    }
  }

  lemma {:induction false} NumberBounds(i: nat, size: nat)
    requires size > 0
    ensures Base(Number(i, size), size) <= i < Base(Number(i, size), size) + size
  {
    if i >= size {
      NumberBounds(i - size, size);
      BaseStep(Number(i - size, size), size);
    }
  }

  lemma NumberUnique(i: nat, k: nat, size: nat)
    requires size > 0 && Base(k, size) <= i < Base(k, size) + size
    ensures Number(i, size) == k
  {
    NumberBounds(i, size);
    var n := Number(i, size);
    if n < k {
      BaseMonotone(n, k, size);
    } else if k < n {
      BaseMonotone(k, n, size);
    }
  }

  lemma {:induction false} NumberMonotone(i: nat, j: nat, size: nat)
    requires size > 0 && i <= j
    ensures Number(i, size) <= Number(j, size)
  {
    if i >= size {
      NumberMonotone(i - size, j - size, size);
    }
  }

  /** An index below the base of block n is in a block before n. */
  lemma NumberBelow(i: nat, n: nat, size: nat)
    requires size > 0
    ensures i < Base(n, size) <==> Number(i, size) < n
  {
    NumberBounds(i, size);
    var k := Number(i, size);
    if k < n {
      BaseMonotone(k, n, size);
    } else if n < k {
      BaseMonotone(n, k, size);
    }
  }

  /** Where in its block index i is: i & (BLOCK_SIZE - 1). */
  function Offset(i: nat, size: nat): (o: nat)
    requires size > 0
    ensures o < size
  {
    NumberBounds(i, size);
    i - Base(Number(i, size), size)
  }

  lemma OffsetIsRemainder(i: nat, size: nat)
    requires size > 0
    ensures Offset(i, size) == i % size && Circular.MaskDown(i, size) == Base(Number(i, size), size)
  {
    NumberBounds(i, size);
    BaseIsMultiple(Number(i, size), size);
    RemainderUnique(i, size, Number(i, size), Offset(i, size));
  }

  lemma AlignedAtBase(i: nat, size: nat)
    requires size > 0
    ensures i % size == 0 <==> i == Base(Number(i, size), size)
  {
    OffsetIsRemainder(i, size);
  }

  /** The block number changes exactly at the start of a block. */
  lemma NextNumber(i: nat, size: nat)
    requires size > 0
    ensures i > 0 ==> Number(i, size) == Number(i - 1, size) + (if i % size == 0 then 1 else 0)
  {
    if i > 0 {
      AlignedAtBase(i, size);
      NumberBounds(i - 1, size);
      NumberBounds(i, size);
      var n := Number(i - 1, size);
      if i < Base(n, size) + size {
        NumberUnique(i, n, size);
      } else {
        NumberUnique(i, n + 1, size);
      }
    }
  }

  /** How many blocks the indices below i touch. */
  function Blocks(i: nat, size: nat): nat
    requires size > 0
  {
    if i == 0 then 0 else Number(i - 1, size) + 1
  }

  lemma BlocksBounds(i: nat, size: nat)
    requires size > 0
    ensures i <= Base(Blocks(i, size), size) < i + size
  {
    if i > 0 {
      NumberBounds(i - 1, size);
      BaseStep(Number(i - 1, size), size);
    }
  }

  lemma BlocksUnique(i: nat, n: nat, size: nat)
    requires size > 0 && Base(n, size) < i <= Base(n, size) + size
    ensures Blocks(i, size) == n + 1
  {
    NumberUnique(i - 1, n, size);
  }

  /** At the start of a block no index of it has been used yet. */
  lemma BlocksOfNumber(i: nat, n: nat, size: nat)
    requires size > 0 && n == Number(i, size)
    ensures Blocks(i, size) == if i == Base(n, size) then n else n + 1
  {
    NumberBounds(i, size);
    if i > Base(n, size) {
      BlocksUnique(i, n, size);
    } else if n > 0 {
      BlocksUnique(i, n - 1, size);
    }
  }

  lemma NumberOfBase(n: nat, size: nat)
    requires size > 0
    ensures Number(Base(n, size), size) == n
  {
    NumberUnique(Base(n, size), n, size);
  }

  lemma BaseApart(n: nat, m: nat, size: nat)
    requires size > 0
    ensures n < m <==> Base(n, size) < Base(m, size)
    ensures n < m ==> Base(n, size) + size <= Base(m, size)
  {
    if n < m {
      BaseMonotone(n, m, size);
    } else if m < n {
      BaseMonotone(m, n, size);
    }
  }

  /** One more element needs one more block exactly at the start of a block. */
  lemma BlocksAfterOne(i: nat, size: nat)
    requires size > 0
    ensures Blocks(i + 1, size) == Number(i, size) + 1
    ensures Blocks(i + 1, size) == Blocks(i, size) + (if i == Base(Number(i, size), size) then 1 else 0)
  {
    BlocksOfNumber(i, Number(i, size), size);
  }

  /** Rounding i - 1 down gives the base of the last block that the indices below i touch. */
  lemma MaskDownBefore(i: nat, size: nat)
    requires size > 0
    ensures Circular.MaskDown(i - 1, size) + size == Base(Blocks(i, size), size)
  {
    if i == 0 {
      RemainderUnique(-1, size, -1, size - 1);
    } else {
      OffsetIsRemainder(i - 1, size);
      BaseStep(Number(i - 1, size), size);
    }
  }

  lemma BlocksMonotone(i: nat, j: nat, size: nat)
    requires size > 0 && i <= j
    ensures Blocks(i, size) <= Blocks(j, size)
  {
    if i > 0 {
      NumberMonotone(i - 1, j - 1, size);
    }
  }

  /** How many of the indices [lo, hi) are in block k. */
  function Overlap(lo: nat, hi: nat, k: nat, size: nat): nat {
    var first := if lo < Base(k, size) then Base(k, size) else lo;
    var last := if hi < Base(k, size) + size then hi else Base(k, size) + size;
    if first < last then last - first else 0
  }

  /** A range inside block n has nothing in another block. */
  lemma OverlapInside(lo: nat, hi: nat, n: nat, k: nat, size: nat)
    requires Base(n, size) <= lo <= hi <= Base(n, size) + size
    ensures Overlap(lo, hi, k, size) == if k == n then hi - lo else 0
  {
    if k < n {
      BaseMonotone(k, n, size);
    } else if n < k {
      BaseMonotone(n, k, size);
    }
  }

  lemma OverlapSplit(lo: nat, mid: nat, hi: nat, k: nat, size: nat)
    requires lo <= mid <= hi
    ensures Overlap(lo, hi, k, size) == Overlap(lo, mid, k, size) + Overlap(mid, hi, k, size)
  {
  }
}
