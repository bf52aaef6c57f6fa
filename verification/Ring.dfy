/** Counters that grow without bound, and the slots of a ring that they stand for. */
module Ring {
  import opened PowerOfTwo

  /** Fewer than n apart, different counters have different slots. */
  lemma SlotsDiffer(i: nat, j: nat, n: nat)
    requires i < j < i + n
    ensures i % n != j % n
  {
    if i % n == j % n {
      DivModBounds(i, n);
      DivModBounds(j, n);
      MulMonotone(i / n, j / n, n);
      MulMonotone(j / n, i / n, n);
      assert false;
    }
  }

  /** The slot after a counter's slot is the next counter's. */
  lemma NextSlot(i: nat, n: nat)
    requires n > 0
    ensures (i % n + 1) % n == (i + 1) % n
    ensures 0 <= i % n < n
  {
    DivModBounds(i, n);
    var q, r := i / n, i % n;
    if r + 1 == n {
      MulDistributes(q, 1, n);
      DivModUnique(i + 1, n, q + 1, 0);
      DivModUnique(r + 1, n, 1, 0);
    } else {
      DivModUnique(i + 1, n, q, r + 1);
      DivModUnique(r + 1, n, 0, r + 1);
    }
  }

  lemma SameSlotAfterRound(i: nat, n: nat)
    requires n > 0
    ensures (i + n) % n == i % n
  {
    DivModBounds(i, n);
    MulDistributes(i / n, 1, n);
    DivModUnique(i + n, n, i / n + 1, i % n);
  }
}
