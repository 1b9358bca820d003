/**
 * Index arithmetic shared by every ring of the system.  A ring position is an unbounded
 * operation count reduced to the ring's capacity; the source keeps only the reduced value.
 */
module RingIndex {

  /**
   * The slot of the `count`-th operation: the capacity is taken off until the count fits,
   * as the loop of `next_index_bulk` does.
   */
  function Slot(count: nat, capacity: nat): (i: nat)
    requires capacity > 0
    ensures i < capacity
  {
    if count < capacity then count else Slot(count - capacity, capacity)
  }

  /** `(idx + 1) % max`, the form used by the shared-memory rings. */
  function Increment(idx: nat, capacity: nat): (i: nat)
    requires capacity > 0
    ensures i < capacity
  {
    (idx + 1) % capacity
  }

  /** `idx + 1 < cap ? idx + 1 : 0`, the form used by the NTB rings. */
  function Wrap(idx: nat, capacity: nat): (i: nat)
    requires capacity > 0
    ensures i < capacity
  {
    if idx + 1 < capacity then idx + 1 else 0
  }

  /** The loop of subtractions computes the remainder. */
  lemma {:induction false} SlotIsRemainder(count: nat, capacity: nat)
    requires capacity > 0
    ensures Slot(count, capacity) == count % capacity
  {
    if count >= capacity {
      SlotIsRemainder(count - capacity, capacity);
      assert count % capacity == (count - capacity) % capacity by {
        var q, r := (count - capacity) / capacity, (count - capacity) % capacity;
        assert count == (q + 1) * capacity + r;
        DivisionIsUnique(count, q + 1, r, capacity);
      }
    }
  }

  lemma {:induction false} MulStep(a: int, b: int, d: int)
    requires a < b && d > 0
    ensures a * d + d <= b * d
    decreases b - a
  {
    if a + 1 == b {
      assert b * d == a * d + d;
    } else {
      MulStep(a, b - 1, d);
      assert b * d == (b - 1) * d + d;
    }
  }

  lemma DivisionIsUnique(n: int, q: int, r: int, d: int)
    requires d > 0 && 0 <= r < d && n == q * d + r
    ensures n / d == q && n % d == r
  {
    var q' := n / d;
    assert n == q' * d + n % d;
    if q < q' {
      MulStep(q, q', d);
    } else if q' < q {
      MulStep(q', q, d);
    }
  }

  lemma QuotientIsBelow(a: int, d: int, n: int)
    requires d > 0 && 0 <= a < n * d
    ensures 0 <= a / d < n
  {
    var q := a / d;
    assert a == q * d + a % d;
    if n == q {
    } else if n < q {
      MulStep(n, q, d);
    }
  }

  /** Both successor forms compute the slot of the next operation. */
  lemma {:induction false} Next(count: nat, capacity: nat)
    requires capacity > 0
    ensures Increment(Slot(count, capacity), capacity) == Slot(count + 1, capacity)
    ensures Wrap(Slot(count, capacity), capacity) == Slot(count + 1, capacity)
  {
    if count >= capacity {
      Next(count - capacity, capacity);
    } else if count + 1 == capacity {
      DivisionIsUnique(count + 1, 1, 0, capacity);
    }
  }

  /** The successor of a slot, without the remainder. */
  lemma NextSlot(i: nat, capacity: nat)
    requires i < capacity
    ensures Increment(i, capacity) == if i + 1 == capacity then 0 else i + 1
  {
    Next(i, capacity);
  }

  /** Counts less than a lap apart use different slots; counts a lap apart share one. */
  lemma {:induction false} SlotsWithinLap(a: nat, b: nat, capacity: nat)
    requires capacity > 0 && a <= b <= a + capacity
    ensures Slot(a, capacity) == Slot(b, capacity) <==> b == a || b == a + capacity
  {
    if a >= capacity {
      SlotsWithinLap(a - capacity, b - capacity, capacity);
    }
  }
}
