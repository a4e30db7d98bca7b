/** The stream generation allocator: 32 bits, never zero, across wrap-around. */
module GenerationAllocator {
  import opened Base

  /** Generations repeat with this period, because zero is skipped. */
  const PERIOD: int := UINT32_SIZE - 1

  /** The generation that allocation number `k` returns, counted from 1. */
  function GenOf(k: nat): uint32
    requires k >= 1
  {
    (k - 1) % PERIOD + 1
  }

  class GenerationAllocator {
    var next: uint32
    ghost var allocations: nat

    ghost predicate Valid()
      reads this
    {
      next == if allocations == 0 then 1 else (GenOf(allocations) + 1) % UINT32_SIZE
    }

    constructor ()
      ensures Valid() && allocations == 0
    {
      next, allocations := 1, 0;
    }

    method Allocate() returns (gen: uint32)
      requires Valid()
      modifies this
      ensures Valid() && allocations == old(allocations) + 1
      ensures gen == GenOf(allocations) && gen != 0
    {
      GenOfNext(allocations);
      gen := next;
      next := (next + 1) % UINT32_SIZE;
      while gen == 0
        invariant allocations == old(allocations)
        invariant gen == 0 ==> next == 1
        invariant next == (gen + 1) % UINT32_SIZE
        invariant gen == 0 || gen == GenOf(allocations + 1)
        invariant gen == 0 ==> GenOf(allocations + 1) == 1
        decreases if gen == 0 then 1 else 0
      {
        gen := next;
        next := (next + 1) % UINT32_SIZE;
      }
      allocations := allocations + 1;
    }
  }

  lemma GenOfNext(k: nat)
    ensures GenOf(k + 1) == if k == 0 || GenOf(k) == UINT32_SIZE - 1 then 1 else GenOf(k) + 1
  {
    if k > 0 {
      var q, r := (k - 1) / PERIOD, (k - 1) % PERIOD;
      if r == PERIOD - 1 {
        DivModUnique(k, q + 1, 0, PERIOD);
      } else {
        DivModUnique(k, q, r + 1, PERIOD);
      }
    }
  }

  /** Two allocations return the same generation iff their numbers differ by a
      multiple of 2^32 - 1; so any 2^32 - 1 consecutive ones are distinct. */
  lemma SameGenerationIff(i: nat, j: nat)
    requires 1 <= i <= j
    ensures GenOf(i) == GenOf(j) <==> (j - i) % PERIOD == 0
    ensures i < j < i + PERIOD ==> GenOf(i) != GenOf(j)
  {
    var a, b := (i - 1) % PERIOD, (j - 1) % PERIOD;
    var q := (j - 1) / PERIOD - (i - 1) / PERIOD;
    assert j - i == q * PERIOD + (b - a);
    if b >= a {
      DivModUnique(j - i, q, b - a, PERIOD);
    } else {
      assert j - i == (q - 1) * PERIOD + (PERIOD + b - a);
      DivModUnique(j - i, q - 1, PERIOD + b - a, PERIOD);
    }
    if i < j < i + PERIOD {
      DivModUnique(j - i, 0, j - i, PERIOD);
    }
  }
}
