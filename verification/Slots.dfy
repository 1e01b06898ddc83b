/** Numbered entries kept in a fixed number of slots. */
module Slots {
  /** Fewer than `size` apart, two numbers have different slots. */
  lemma SlotsDiffer(s: nat, t: nat, size: nat)
    requires 0 < size && s < t < s + size
    ensures s % size != t % size
  {
    if s % size == t % size {
      var k := t / size - s / size;
      assert t - s == size * k;
      MultipleOutside(size, k);
    }
  }

  /** One round later it is the same slot. */
  lemma SameSlotNextRound(s: nat, size: nat)
    requires 0 < size
    ensures (s + size) % size == s % size
  {
    var k := (s + size) / size - s / size - 1;
    assert (s + size) % size - s % size == size * -k;
    MultipleOutside(size, k);
    MultipleOutside(size, -k);
    assert size * -k == -(size * k);
  }

  /** The slots take turns. */
  lemma NextSlot(s: nat, size: nat)
    requires 0 < size
    ensures (s + 1) % size == if s % size + 1 == size then 0 else s % size + 1
  {
    var k := (s + 1) / size - s / size;
    assert (s + 1) % size == s % size + 1 - size * k;
    MultipleOutside(size, k);
    MultipleOutside(size, k - 1);
    assert size * (k - 1) == size * k - size;
  }

  lemma MultipleOutside(size: nat, k: int)
    ensures size * k <= 0 || size * k >= size
  {
    if k <= 0 {
      assert size * k <= 0;
    } else {
      assert size * k >= size;
    }
  }
}
