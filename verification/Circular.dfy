/**
 Index arithmetic of the program: unsigned words of w bits that wrap around.

 The other modules count with unbounded indices. Here the program's expressions on the
 w-bit images of such indices are shown to give the unbounded answers as long as the
 indices compared lie within half the range of each other, and exactly when they fail.
 */
module Circular {
  import opened Remainders

  function Pow2(n: nat): (p: nat)
    ensures p > 0
  {
    if n == 0 then 1 else 2 * Pow2(n - 1)
  }

  /** The w-bit word that holds x. */
  function Wrap(x: int, w: nat): nat {
    x % Pow2(w)
  }

  /** `circular_less_than` on two words. */
  predicate CircularLessThan(a: nat, b: nat, w: nat)
    requires w >= 1
  {
    Wrap(a - b, w) > Pow2(w - 1)
  }

  /** A word read as a two's complement number. */
  function Signed(a: nat, w: nat): int
    requires w >= 1
  {
    if a < Pow2(w - 1) then a else a - Pow2(w)
  }

  /** C++ division: it truncates towards zero. */
  function TruncDiv(a: int, b: int): int
    requires b > 0
  {
    if a >= 0 then a / b else -((-a) / b)
  }

  /** x & ~(size - 1), for a size that is a power of two: the multiple of size at or below x. */
  function MaskDown(x: int, size: nat): int
    requires size > 0
  {
    x - x % size
  }

  // ---------- words ----------

  /** Words may be wrapped before or after they are added and subtracted. */
  lemma WrapLeft(x: int, y: int, w: nat)
    ensures Wrap(Wrap(x, w) + y, w) == Wrap(x + y, w)
  {
    RemainderLeft(x, y, Pow2(w));
  }

  lemma WrapDifference(x: int, y: int, w: nat)
    ensures Wrap(x - Wrap(y, w), w) == Wrap(x - y, w)
    ensures Wrap(Wrap(x, w) - Wrap(y, w), w) == Wrap(x - y, w)
  {
    WrapRight(x, y, w);
    WrapRight(Wrap(x, w), y, w);
    WrapLeft(x, -y, w);
  }

  lemma WrapRight(x: int, y: int, w: nat)
    ensures Wrap(x - Wrap(y, w), w) == Wrap(x - y, w)
  {
    RemainderRight(x, y, Pow2(w));
  }

  lemma {:induction false} Pow2Divides(a: nat, b: nat) returns (k: nat)
    requires a <= b
    ensures k > 0 && Pow2(b) == k * Pow2(a)
  {
    if a == b {
      k := 1;
    } else {
      var k1 := Pow2Divides(a, b - 1);
      k := 2 * k1;
      assert 2 * (k1 * Pow2(a)) == k * Pow2(a);
    }
  }

  /** A narrower remainder of a word is the remainder of the number it holds. */
  lemma WrapThenRemainder(x: int, w: nat, c: nat)
    requires c <= w
    ensures Wrap(x, w) % Pow2(c) == x % Pow2(c)
  {
    var k := Pow2Divides(c, w);
    RemainderIsCongruent(x, Pow2(w));
    RemainderOfMultiple(x, Pow2(w), -(x / Pow2(w)), k, Pow2(c));
  }

  // ---------- comparison ----------

  /** What the comparison says of any two indices at most a full range apart. */
  lemma CircularLessThanExact(a: int, b: int, w: nat)
    requires w >= 1 && b - a < Pow2(w) && a - b <= Pow2(w)
    ensures CircularLessThan(Wrap(a, w), Wrap(b, w), w)
            <==> 0 < b - a < Pow2(w - 1) || Pow2(w - 1) < a - b < Pow2(w)
  {
    WrapDifference(a, b, w);
    var d := a - b;
    if d < 0 {
      RemainderUnique(d, Pow2(w), -1, d + Pow2(w));
    } else if d < Pow2(w) {
      RemainderUnique(d, Pow2(w), 0, d);
    } else {
      RemainderUnique(d, Pow2(w), 1, 0);
    }
  }

  /** Less than half the range apart, it is the order of the unbounded indices. */
  lemma CircularLessThanRefines(a: int, b: int, w: nat)
    requires w >= 1 && b - a < Pow2(w - 1) && a - b < Pow2(w - 1)
    ensures CircularLessThan(Wrap(a, w), Wrap(b, w), w) <==> a < b
  {
    CircularLessThanExact(a, b, w);
  }

  /** Of two indices less than a full range apart, it gives the order exactly outside these distances. */
  lemma CircularLessThanIsOrderIff(a: int, b: int, w: nat)
    requires w >= 1 && b - a < Pow2(w) && a - b < Pow2(w)
    ensures (CircularLessThan(Wrap(a, w), Wrap(b, w), w) <==> a < b)
            <==> b - a < Pow2(w - 1) && !(Pow2(w - 1) < a - b)
  {
    CircularLessThanExact(a, b, w);
  }

  /** Exactly half the range ahead, it is wrong: the bound is strict. */
  lemma CircularLessThanFailsAtHalf(a: int, w: nat)
    requires w >= 1
    ensures !CircularLessThan(Wrap(a, w), Wrap(a + Pow2(w - 1), w), w)
  {
    CircularLessThanExact(a, a + Pow2(w - 1), w);
  }

  // ---------- blocks ----------

  lemma RoundDownInside(x: int, m: nat, q: int, word: nat, r: nat)
    requires x == q * m + word && r <= word < m
    ensures (x - r) % m == word - r
  {
    RemainderUnique(x - r, m, q, word - r);
  }

  lemma MaskDownOfWrap(x: int, w: nat, b: nat)
    requires b <= w
    ensures MaskDown(Wrap(x, w), Pow2(b)) == Wrap(MaskDown(x, Pow2(b)), w)
  {
    var m, size := Pow2(w), Pow2(b);
    WrapThenRemainder(x, w, b);
    // rounding a word down keeps it a word, and x and its word have the same remainder
    RemainderAtMost(Wrap(x, w), size);
    DivisionIdentity(x, m);
    RoundDownInside(x, m, x / m, Wrap(x, w), x % size);
  }

  lemma SignedOfWrap(d: int, w: nat)
    requires w >= 1 && 0 - Pow2(w - 1) <= d < Pow2(w - 1)
    ensures Signed(Wrap(d, w), w) == d
  {
    if d >= 0 {
      RemainderUnique(d, Pow2(w), 0, d);
    } else {
      RemainderUnique(d, Pow2(w), -1, d + Pow2(w));
    }
  }

  lemma TruncDivExact(k: int, size: nat)
    requires size > 0
    ensures TruncDiv(k * size, size) == k
  {
    if k >= 0 {
      RemainderUnique(k * size, size, k, 0);
      MulSign(k, size);
    } else {
      RemainderUnique(-(k * size), size, -k, 0);
      MulSign(-k, size);
      assert k * size == -((-k) * size);
    }
  }

  lemma MulSign(k: int, size: nat)
    requires k >= 0 && size > 0
    ensures k * size >= 0 && (k > 0 ==> k * size > 0)
  {
  }

  /** The slot a consumer computes for an index, from the base it reads at the front slot. */
  function SlotFor(index: nat, headBase: nat, front: nat, w: nat, b: nat, c: nat): nat
    requires w >= 1
  {
    var blockBase := MaskDown(index, Pow2(b));
    var offset := Wrap(TruncDiv(Signed(Wrap(blockBase - headBase, w), w), Pow2(b)), w);
    Wrap(front + offset, w) % Pow2(c)
  }

  /** The signed division of the wrapped difference of two bases counts the blocks between them. */
  lemma OffsetRefines(index: int, frontBlock: int, w: nat, b: nat)
    requires w >= 1 && b <= w
    requires 0 - Pow2(w - 1) <= MaskDown(index, Pow2(b)) - frontBlock * Pow2(b) < Pow2(w - 1)
    ensures TruncDiv(Signed(Wrap(MaskDown(Wrap(index, w), Pow2(b)) - Wrap(frontBlock * Pow2(b), w), w), w), Pow2(b))
            == index / Pow2(b) - frontBlock
  {
    var size := Pow2(b);
    var block := index / size;
    DivisionIdentity(index, size);
    MulDistributes(block, frontBlock, size);
    assert Wrap(MaskDown(Wrap(index, w), size) - Wrap(frontBlock * size, w), w) == Wrap((block - frontBlock) * size, w) by {
      MaskDownOfWrap(index, w, b);
      WrapDifference(block * size, frontBlock * size, w);
    }
    SignedOfWrap((block - frontBlock) * size, w);
    TruncDivExact(block - frontBlock, size);
  }

  /**
   The slot of block `block`, when the front slot holds block `frontBlock`: the program's signed
   division of wrapped bases, its cast and its masks give front + (block - frontBlock) modulo the
   index size, for offsets of either sign.
   */
  lemma SlotForRefines(index: int, frontBlock: int, front: nat, w: nat, b: nat, c: nat)
    requires w >= 1 && b <= w && c <= w
    requires 0 - Pow2(w - 1) <= MaskDown(index, Pow2(b)) - frontBlock * Pow2(b) < Pow2(w - 1)
    ensures SlotFor(Wrap(index, w), Wrap(frontBlock * Pow2(b), w), front, w, b, c)
            == (front + (index / Pow2(b) - frontBlock)) % Pow2(c)
  {
    var size := Pow2(b);
    var block := index / size;
    OffsetRefines(index, frontBlock, w, b);
    WrapLeft(block - frontBlock, front, w);
    WrapThenRemainder(front + (block - frontBlock), w, c);
  }

  // ---------- bulk ----------

  /** How many of the indices [start, start + count) begin a block. */
  function Boundaries(start: nat, count: nat, size: nat): nat
    requires size > 0
  {
    if count == 0 then 0
    else Boundaries(start, count - 1, size) + (if (start + count - 1) % size == 0 then 1 else 0)
  }

  lemma {:induction false} BoundariesAsDifference(start: nat, count: nat, size: nat)
    requires size > 0
    ensures MaskDown(start + count - 1, size) - MaskDown(start - 1, size) == Boundaries(start, count, size) * size
  {
    if count > 0 {
      BoundariesAsDifference(start, count - 1, size);
      MaskDownStep(start + count - 1, size);
      MulDistributes(Boundaries(start, count - 1, size), 1, size);
    }
  }

  /** Rounding down moves only at the start of a block. */
  lemma MaskDownStep(x: int, size: nat)
    requires size > 0
    ensures MaskDown(x, size) - MaskDown(x - 1, size) == if x % size == 0 then size else 0
  {
    var q, r := x / size, x % size;
    if r == 0 {
      RemainderUnique(x - 1, size, q - 1, size - 1);
    } else {
      RemainderUnique(x - 1, size, q, r - 1);
    }
  }

  /** `blockBaseDiff` of a bulk enqueue of `count` elements at `start`. */
  function BlockBaseDiff(start: nat, count: nat, w: nat, b: nat): nat {
    Wrap(MaskDown(Wrap(start + count - 1, w), Pow2(b)) - MaskDown(Wrap(start - 1, w), Pow2(b)), w)
  }

  lemma MaskDownNear(x: int, y: int, w: nat, b: nat)
    requires b <= w
    ensures MaskDown(Wrap(Wrap(x, w) + y, w), Pow2(b)) == Wrap(MaskDown(x + y, Pow2(b)), w)
  {
    WrapLeft(x, y, w);
    MaskDownOfWrap(x + y, w, b);
  }

  lemma WordIsItself(n: nat, w: nat)
    requires n < Pow2(w)
    ensures Wrap(n, w) == n
  {
    RemainderUnique(n, Pow2(w), 0, n);
  }

  /** It is the block size times the number of blocks that begin in the range, across any wrap-around. */
  lemma BlockBaseDiffCountsBlocks(start: nat, count: nat, w: nat, b: nat)
    requires b <= w && Boundaries(start, count, Pow2(b)) * Pow2(b) < Pow2(w)
    ensures BlockBaseDiff(Wrap(start, w), count, w, b) == Boundaries(start, count, Pow2(b)) * Pow2(b)
  {
    var size := Pow2(b);
    var last, before := start + count - 1, start - 1;
    MaskDownNear(start, count - 1, w, b);
    MaskDownNear(start, -1, w, b);
    WrapDifference(MaskDown(last, size), MaskDown(before, size), w);
    BoundariesAsDifference(start, count, size);
    WordIsItself(Boundaries(start, count, size) * size, w);
  }
}
