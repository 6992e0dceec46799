/** Division of an index range into blocks, and the parallel loop that depends on it. */
module Blocks {
  import opened Pow2Arith

  class Partition {
    const firstIndex: int
    const indexAfterLast: int
    const numBlocks: nat
    const blockSize: nat
    const remainder: nat

    /** The number of blocks wanted must not be 0 unless the range is empty. */
    constructor (first: int, afterLast: int, wanted: nat)
      requires afterLast > first ==> wanted > 0
      ensures Valid() && firstIndex == first && indexAfterLast == afterLast
      ensures numBlocks == if afterLast <= first then 0 else if wanted < afterLast - first then wanted else afterLast - first
    {
      firstIndex, indexAfterLast := first, afterLast;
      blockSize, remainder, numBlocks := 0, 0, 0;
      if afterLast > first {
        var total: nat := afterLast - first;
        var n := if wanted < total then wanted else total;
        var size, rest := total / n, total % n;
        DivideRange(total, n);
        if size == 0 {
          size := 1;
          n := if total > 1 then total else 1;
        }
        numBlocks, blockSize, remainder := n, size, rest;
      }
    }

    ghost predicate Valid() {
      if indexAfterLast <= firstIndex then numBlocks == 0
      else
        && numBlocks > 0 && blockSize > 0 && remainder < numBlocks
        && Times(numBlocks, blockSize) + remainder == indexAfterLast - firstIndex
    }

    function Start(block: nat): int {
      firstIndex + Times(block, blockSize) + if block < remainder then block else remainder
    }

    function End(block: nat): int {
      if block == numBlocks - 1 then indexAfterLast else Start(block + 1)
    }
  }

  lemma DivideRange(total: nat, n: nat)
    requires 0 < n <= total
    ensures total / n > 0 && total % n < n && Times(n, total / n) + total % n == total
  {
    assert total == n * (total / n) + total % n;
  }

  lemma NextTimes(x: nat, y: nat)
    ensures Times(x + 1, y) == Times(x, y) + y
  {
  }

  /** The first block starts where the range starts, every block ends where the next one starts, and the last ends
      where the range ends. */
  lemma Contiguous(p: Partition, block: nat)
    requires p.Valid() && block < p.numBlocks
    ensures p.Start(0) == p.firstIndex && p.End(p.numBlocks - 1) == p.indexAfterLast
    ensures block + 1 < p.numBlocks ==> p.End(block) == p.Start(block + 1)
    ensures p.Start(p.numBlocks) == p.indexAfterLast
  {
    assert Times(0, p.blockSize) == 0;
  }

  /** No block is empty, and the sizes of any two blocks differ by at most one. */
  lemma Balanced(p: Partition, block: nat)
    requires p.Valid() && block < p.numBlocks
    ensures p.End(block) - p.Start(block) == p.blockSize + if block < p.remainder then 1 else 0
    ensures p.Start(block) < p.End(block)
  {
    NextTimes(block, p.blockSize);
    Contiguous(p, block);
    hide Times;
  }

  lemma {:induction false} StartsBelow(p: Partition, a: nat, b: nat)
    requires p.Valid() && a < b <= p.numBlocks
    ensures p.Start(a) < p.Start(b)
  {
    Balanced(p, b - 1);
    Contiguous(p, b - 1);
    if a < b - 1 {
      StartsBelow(p, a, b - 1);
    }
  }

  /** Every index of the range is in exactly one block, and no other index is in any. */
  lemma CoveredOnce(p: Partition, i: int)
    requires p.Valid()
    ensures (exists block: nat :: block < p.numBlocks && p.Start(block) <= i < p.End(block))
      <==> p.firstIndex <= i < p.indexAfterLast
    ensures forall a: nat, b: nat ::
      a < p.numBlocks && b < p.numBlocks && p.Start(a) <= i < p.End(a) && p.Start(b) <= i < p.End(b) ==> a == b
  {
    if p.firstIndex <= i < p.indexAfterLast {
      Contiguous(p, 0);
      var block := BlockOf(p, i, p.numBlocks);
      Contiguous(p, block);
    }
    forall a: nat | a < p.numBlocks && p.Start(a) <= i < p.End(a) ensures p.firstIndex <= i < p.indexAfterLast {
      Contiguous(p, a);
      if a > 0 { StartsBelow(p, 0, a); }
      if a + 1 < p.numBlocks { StartsBelow(p, a + 1, p.numBlocks); }
    }
    forall a: nat, b: nat | a < b < p.numBlocks ensures p.End(a) <= p.Start(b) {
      Contiguous(p, a);
      if a + 1 < b { StartsBelow(p, a + 1, b); }
    }
  }

  lemma {:induction false} BlockOf(p: Partition, i: int, k: nat) returns (block: nat)
    requires p.Valid() && k <= p.numBlocks && p.Start(0) <= i < p.Start(k)
    ensures block < k && p.Start(block) <= i < p.Start(block + 1)
  {
    if p.Start(k - 1) <= i {
      block := k - 1;
    } else {
      block := BlockOf(p, i, k - 1);
    }
  }

  /* ---------- index types of limited width ---------- */

  /** The values of an integer type: as many as modulus says, from low on. */
  datatype IndexType = IndexType(low: int, modulus: nat) {
    predicate Holds(x: int) {
      low <= x < low + modulus
    }

    /** Conversion to the type: modulo its number of values. */
    function Wrap(x: int): int
      requires modulus > 0
    {
      low + (x - low) % modulus
    }

    /** start(block), every operand and every sum converted to the type. */
    function Start(p: Partition, block: nat): int
      requires modulus > 0
    {
      Wrap(Wrap(p.firstIndex + Wrap(Times(block, p.blockSize))) + Wrap(if block < p.remainder then block else p.remainder))
    }
  }

  lemma WrapExact(t: IndexType, x: int)
    requires t.Holds(x)
    ensures t.Wrap(x) == x
  {
  }

  lemma WrapShift(t: IndexType, x: int, k: int)
    requires t.modulus > 0
    ensures t.Wrap(x + k * t.modulus) == t.Wrap(x)
  {
    var y := x - t.low;
    var q := y / t.modulus;
    assert y + k * t.modulus == (q + k) * t.modulus + y % t.modulus;
    DivModUnique(y + k * t.modulus, t.modulus, q + k, y % t.modulus);
  }

  /** Converting an operand first makes no difference to a converted sum. */
  lemma WrapSum(t: IndexType, x: int, y: int)
    requires t.modulus > 0
    ensures t.Wrap(x + t.Wrap(y)) == t.Wrap(x + y)
  {
    var k := (y - t.low) / t.modulus;
    assert t.Wrap(y) == y + (-k) * t.modulus;
    WrapShift(t, x + y, -k);
  }

  /** In an index type that holds the two ends of the range, the start of every block comes out exactly, in spite of
      wrap-around on the way. If the type holds the length of the range, too, nothing wraps around in the first place. */
  lemma StartInType(p: Partition, block: nat, t: IndexType)
    requires p.Valid() && block < p.numBlocks && t.Holds(p.firstIndex) && t.Holds(p.indexAfterLast)
    ensures t.Start(p, block) == p.Start(block) && t.Holds(p.Start(block))
    ensures t.Holds(0) && t.Holds(p.indexAfterLast - p.firstIndex) ==>
      t.Holds(Times(block, p.blockSize)) && t.Holds(if block < p.remainder then block else p.remainder)
      && t.Holds(p.firstIndex + Times(block, p.blockSize))
  {
    var a, b := Times(block, p.blockSize), if block < p.remainder then block else p.remainder;
    StartsBelow(p, block, p.numBlocks);
    Contiguous(p, block);
    assert t.Start(p, block) == t.Wrap(t.Wrap(p.firstIndex + t.Wrap(a)) + t.Wrap(b));
    hide Times, IndexType.Wrap;
    WrapSum(t, p.firstIndex, a);
    WrapSum(t, t.Wrap(p.firstIndex + t.Wrap(a)), b);
    WrapSum(t, b, p.firstIndex + a);
    WrapExact(t, p.Start(block));
  }

  /** The indices from a up to b, in order. */
  function Range(a: int, b: int): seq<int>
    decreases b - a
  {
    if a >= b then [] else Range(a, b - 1) + [b - 1]
  }

  lemma {:induction false} RangeJoins(a: int, b: int, c: int)
    requires a <= b <= c
    ensures Range(a, b) + Range(b, c) == Range(a, c)
    decreases c - b
  {
    if b < c {
      RangeJoins(a, b, c - 1);
      assert Range(a, b) + (Range(b, c - 1) + [c - 1]) == Range(a, b) + Range(b, c - 1) + [c - 1];
    } else {
      assert Range(a, b) + [] == Range(a, b);
    }
  }

  /** A task of a parallel loop: runs the loop body for each index of its block. */
  datatype LoopTask = LoopTask(start: int, end: int)

  /** The indices that the loop body is called for when the tasks are run in order. */
  function Calls(tasks: seq<LoopTask>): seq<int> {
    if tasks == [] then []
    else Calls(tasks[..|tasks| - 1]) + Range(tasks[|tasks| - 1].start, tasks[|tasks| - 1].end)
  }

  /** As many tasks as wanted, but no more than there are indices. */
  function TaskCount(length: int, wanted: nat): nat {
    if length <= 0 then 0 else if wanted < length then wanted else length
  }

  /** detach_loop: the tasks put into the queue call the loop body exactly once for every index, in order; there are as
      many as wanted, of lengths that differ by at most one; 0 stands for one block per thread. */
  method DetachLoop(first: int, afterLast: int, numBlocks: nat, threadCount: nat) returns (tasks: seq<LoopTask>)
    requires threadCount > 0
    ensures Calls(tasks) == Range(first, afterLast)
    ensures |tasks| == TaskCount(afterLast - first, if numBlocks != 0 then numBlocks else threadCount)
    ensures forall t :: t in tasks ==> t.start < t.end
    ensures forall t, u :: t in tasks && u in tasks ==> t.end - t.start <= u.end - u.start + 1
  {
    tasks := [];
    if afterLast > first {
      var p := new Partition(first, afterLast, if numBlocks != 0 then numBlocks else threadCount);
      Contiguous(p, 0);
      var blk := 0;
      while blk < p.numBlocks
        invariant |tasks| == blk <= p.numBlocks
        invariant Calls(tasks) == Range(first, p.Start(blk)) && first <= p.Start(blk)
        invariant forall t :: t in tasks ==> t.start < t.end && p.blockSize <= t.end - t.start <= p.blockSize + 1
      {
        Balanced(p, blk);
        Contiguous(p, blk);
        RangeJoins(first, p.Start(blk), p.End(blk));
        var more := tasks + [LoopTask(p.Start(blk), p.End(blk))];
        assert more[..|more| - 1] == tasks;
        tasks, blk := more, blk + 1;
      }
    }
  }
}
