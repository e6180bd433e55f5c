/**
 * Batch arithmetic of the dispatcher: how many batches a list of `n` records
 * makes for a batch size `size`, and which index range batch `b` (counted
 * from 1) covers.
 */
module Batching {

  /** The number of batches, computed as the application does: (n + size - 1) / size. */
  function TotalBatches(n: nat, size: nat): (t: nat)
    requires size >= 1
    ensures n <= t * size
    ensures t == 0 || (t - 1) * size < n
  {
    var t := (n + size - 1) / size;
    DivBounds(n + size - 1, size);
    t
  }

  /** Euclidean division bounds, stated with the multiplication the callers need. */
  lemma DivBounds(a: nat, d: nat)
    requires d >= 1
    ensures (a / d) * d <= a < (a / d) * d + d
  {
  }

  /** First index of batch `b`. */
  function BatchStart(b: int, size: nat): int
  {
    (b - 1) * size
  }

  /** One past the last index of batch `b`: the batch is cut short by the end of the list. */
  function BatchEnd(n: nat, b: int, size: nat): int
  {
    if BatchStart(b, size) + size < n then BatchStart(b, size) + size else n
  }

  /** The batch that holds index `i`. */
  function BatchOf(i: nat, size: nat): (b: nat)
    requires size >= 1
    ensures b >= 1
    ensures BatchStart(b, size) <= i < BatchStart(b, size) + size
  {
    DivBounds(i, size);
    i / size + 1
  }

  /**
   * Every batch from 1 to the total is a non-empty range inside the list, of
   * exactly `size` records except possibly the last.
   */
  lemma BatchInRange(n: nat, size: nat, b: int)
    requires size >= 1
    requires 1 <= b <= TotalBatches(n, size)
    ensures 0 <= BatchStart(b, size) < BatchEnd(n, b, size) <= n
    ensures BatchEnd(n, b, size) - BatchStart(b, size) <= size
    ensures b < TotalBatches(n, size) ==> BatchEnd(n, b, size) - BatchStart(b, size) == size
  {
    var t := TotalBatches(n, size);
    MulMonotone(b - 1, t - 1, size);
    if b < t {
      MulMonotone(b, t - 1, size);
      assert BatchStart(b, size) + size == b * size;
    }
  }

  lemma MulMonotone(x: int, y: int, k: nat)
    requires 0 <= x <= y
    ensures x * k <= y * k
  {
  }

  /** Every index of the list lies in exactly one batch between 1 and the total. */
  lemma BatchesCover(n: nat, size: nat, i: nat)
    requires size >= 1
    requires i < n
    ensures 1 <= BatchOf(i, size) <= TotalBatches(n, size)
    ensures BatchStart(BatchOf(i, size), size) <= i < BatchEnd(n, BatchOf(i, size), size)
  {
    var b := BatchOf(i, size);
    var t := TotalBatches(n, size);
    if b > t {
      MulMonotone(t, b - 1, size);
      assert false;
    }
  }

  /** Consecutive batches are adjacent: batch b + 1 starts where a full batch b ends. */
  lemma StartStep(b: int, size: nat)
    ensures BatchStart(b + 1, size) == BatchStart(b, size) + size
  {
    assert b * size == (b - 1) * size + size;
  }

  lemma StartMonotone(x: int, y: int, size: nat)
    requires x <= y
    ensures BatchStart(x, size) <= BatchStart(y, size)
  {
    assert (y - 1) * size - (x - 1) * size == (y - x) * size;
  }

  /** Two batches that share an index are the same batch. */
  lemma BatchesDisjoint(n: nat, size: nat, b1: int, b2: int, i: int)
    requires size >= 1
    requires BatchStart(b1, size) <= i < BatchEnd(n, b1, size)
    requires BatchStart(b2, size) <= i < BatchEnd(n, b2, size)
    ensures b1 == b2
  {
    if b1 < b2 {
      StartStep(b1, size);
      StartMonotone(b1 + 1, b2, size);
    } else if b2 < b1 {
      StartStep(b2, size);
      StartMonotone(b2 + 1, b1, size);
    }
  }

  /** Sum of the sizes of batches 1..k. */
  function SizesUpTo(n: nat, size: nat, k: nat): int
  {
    if k == 0 then 0 else SizesUpTo(n, size, k - 1) + (BatchEnd(n, k, size) - BatchStart(k, size))
  }

  /** Batches 1..k, for k up to the total, cover exactly the prefix [0, BatchEnd(k)). */
  lemma {:induction false} SizesUpToPrefix(n: nat, size: nat, k: nat)
    requires size >= 1
    requires 1 <= k <= TotalBatches(n, size)
    ensures SizesUpTo(n, size, k) == BatchEnd(n, k, size)
  {
    if k == 1 {
      assert BatchStart(1, size) == 0;
    } else {
      SizesUpToPrefix(n, size, k - 1);
      BatchInRange(n, size, k - 1);
      StartStep(k - 1, size);
      assert BatchEnd(n, k - 1, size) == BatchStart(k, size);
    }
  }

  /** The batch sizes add up to the number of records: no record is left out or counted twice. */
  lemma BatchSizesSum(n: nat, size: nat)
    requires size >= 1
    ensures SizesUpTo(n, size, TotalBatches(n, size)) == n
  {
    var t := TotalBatches(n, size);
    if t > 0 {
      SizesUpToPrefix(n, size, t);
      BatchInRange(n, size, t);
      MulMonotone(t, t, size);
    }
  }

  /** 25 records in batches of 10 make three batches of 10, 10 and 5 records. */
  lemma TwentyFiveByTen()
    ensures TotalBatches(25, 10) == 3
    ensures BatchStart(1, 10) == 0 && BatchEnd(25, 1, 10) == 10
    ensures BatchStart(2, 10) == 10 && BatchEnd(25, 2, 10) == 20
    ensures BatchStart(3, 10) == 20 && BatchEnd(25, 3, 10) == 25
  {
  }
}
