/** The wrap-around index arithmetic the carousels and the card share:
    a step forward `(i + 1) % n` and a step back `(i - 1 + n) % n` over a
    list of `n` items. Both operands are non-negative there, so the
    remainder of the source and Dafny's agree. */
module Rotation {

  function NextIndex(i: nat, n: nat): (r: nat)
    requires n > 0
    ensures r < n
    ensures i < n - 1 ==> r == i + 1
    ensures i == n - 1 ==> r == 0
  {
    (i + 1) % n
  }

  function PrevIndex(i: nat, n: nat): (r: nat)
    requires n > 0 && i < n
    ensures r < n
    ensures i > 0 ==> r == i - 1
    ensures i == 0 ==> r == n - 1
  {
    (i - 1 + n) % n
  }

  /** A step back undoes a step forward, and the other way round. */
  lemma NextPrevInverse(i: nat, n: nat)
    requires n > 0 && i < n
    ensures PrevIndex(NextIndex(i, n), n) == i
    ensures NextIndex(PrevIndex(i, n), n) == i
  {
  }

  /** The index after `k` forward steps from `i`. */
  function Advance(i: nat, n: nat, k: nat): (r: nat)
    requires n > 0
    ensures r < n || (k == 0 && r == i)
  {
    if k == 0 then i else NextIndex(Advance(i, n, k - 1), n)
  }

  /** Within one cycle, `k` forward steps from `i` land on `i + k`,
      wrapped once past the end. */
  lemma {:induction false} AdvanceWithinCycle(i: nat, n: nat, k: nat)
    requires n > 0 && i < n && k <= n
    ensures Advance(i, n, k) == if i + k < n then i + k else i + k - n
  {
    if k > 0 {
      AdvanceWithinCycle(i, n, k - 1);
    }
  }

  /** Stepping forward `n` times visits `n` different items, so every
      item once, and comes back to where it started. */
  lemma FullCycleReturns(i: nat, n: nat)
    requires n > 0 && i < n
    ensures Advance(i, n, n) == i
    ensures forall k1, k2 :: 0 <= k1 < k2 < n ==> Advance(i, n, k1) != Advance(i, n, k2)
  {
    AdvanceWithinCycle(i, n, n);
    forall k1, k2 | 0 <= k1 < k2 < n
      ensures Advance(i, n, k1) != Advance(i, n, k2)
    {
      AdvanceWithinCycle(i, n, k1);
      AdvanceWithinCycle(i, n, k2);
    }
  }
}
