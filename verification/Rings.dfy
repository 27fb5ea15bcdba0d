/** Rings of slots addressed by ever-growing positions. */
module Rings {
  import opened Arithmetic

  // The slot of a position: positions are taken modulo the capacity.
  function SlotOf(pos: nat, capacity: nat): (i: nat)
    requires 0 < capacity
    ensures i < capacity
  {
    pos % capacity
  }

  function NextOf(i: nat, capacity: nat): (n: nat)
    requires 0 < capacity
    ensures n < capacity
  {
    (i + 1) % capacity
  }

  lemma NextSlot(n: nat, capacity: nat)
    requires 0 < capacity
    ensures NextOf(SlotOf(n, capacity), capacity) == SlotOf(n + 1, capacity)
  {
    var q, r := n / capacity, n % capacity;
    if r + 1 == capacity {
      assert (q + 1) * capacity == q * capacity + capacity;
      DivisionIsUnique(capacity, (n + 1) / capacity, (n + 1) % capacity, q + 1, 0);
      DivisionIsUnique(capacity, 1, 0, (r + 1) / capacity, (r + 1) % capacity);
    } else {
      DivisionIsUnique(capacity, (n + 1) / capacity, (n + 1) % capacity, q, r + 1);
      SmallRemainder(r + 1, capacity);
    }
  }

  lemma SlotsDiffer(a: nat, b: nat, capacity: nat)
    requires a < b < a + capacity
    ensures SlotOf(a, capacity) != SlotOf(b, capacity)
  {
    RemaindersDiffer(a, b, capacity);
  }

  lemma SlotWraps(a: nat, capacity: nat)
    requires 0 < capacity
    ensures SlotOf(a + capacity, capacity) == SlotOf(a, capacity)
  {
    RemainderWraps(a, capacity);
  }
}
