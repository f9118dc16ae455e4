/** Positions of consecutive sequence numbers in a ring of slots. */
module RingIndex {
  import opened Alignment

  function SlotIndex(sequence: nat, count: nat): (i: nat)
    requires count > 0
    ensures i < count
  {
    sequence % count
  }

  /** Sequence numbers less than a lap apart never share a slot. */
  lemma DistinctSlots(a: nat, b: nat, count: nat)
    requires a < b < a + count
    ensures SlotIndex(a, count) != SlotIndex(b, count)
  {
    if a % count == b % count {
      assert b - a == (b / count - a / count) * count;
      ProductGap(b / count - a / count, count);
    }
  }

  lemma NextLap(a: nat, count: nat)
    requires count > 0
    ensures SlotIndex(a + count, count) == SlotIndex(a, count)
  {
    AddWhole(a, count);
  }
}
