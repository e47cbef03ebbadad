/** Positions in a ring, which grow for ever, and the slots they fall on. */
module Slots {

  /** Positions that differ by less than the capacity are different slots. */
  lemma DifferentSlots(a: nat, b: nat, capacity: nat)
    requires capacity > 0 && a < b < a + capacity
    ensures a % capacity != b % capacity
  {
    var k := b / capacity - a / capacity;
    Stretch(capacity, k);
    assert b - a == capacity * k + (b % capacity - a % capacity);
  }

  lemma Stretch(n: int, k: int)
    requires n > 0
    ensures k >= 1 ==> n * k >= n
    ensures k <= 0 ==> n * k <= 0
    ensures k <= -1 ==> n * k <= -n
  {
  }

  lemma IsRemainder(m: int, q: int, n: int, k: int)
    requires n > 0 && 0 <= k < n && m == n * q + k
    ensures m % n == k
  {
    var x := m / n;
    Stretch(n, q - x);
    assert n * (q - x) == m % n - k;
  }

  lemma NextRemainder(a: nat, n: int)
    requires n > 0
    ensures (a % n + 1) % n == (a + 1) % n
  {
    var x, k := a / n, a % n;
    assert a == n * x + k;
    if k + 1 < n {
      IsRemainder(a + 1, x, n, k + 1);
      IsRemainder(k + 1, 0, n, k + 1);
    } else {
      assert n * (x + 1) == n * x + n;
      IsRemainder(a + 1, x + 1, n, 0);
      IsRemainder(n, 1, n, 0);
    }
  }

  /** The n messages from position start on, in a ring of |ring| slots. */
  function Elements<V>(ring: seq<V>, start: nat, n: nat): (e: seq<V>)
    requires |ring| > 0
    ensures |e| == n
  {
    seq(n, i requires 0 <= i < n => ring[(start + i) % |ring|])
  }

  lemma SameSlot(a: nat, i: nat, n: int)
    requires n > 0
    ensures (a % n + i) % n == (a + i) % n
  {
    var x, k := a / n, a % n;
    var y, m := (k + i) / n, (k + i) % n;
    assert a == n * x + k && k + i == n * y + m;
    assert n * (x + y) == n * x + n * y;
    IsRemainder(a + i, x + y, n, m);
  }

  /** Only the slot that start falls on matters. */
  lemma FromSlot<V>(ring: seq<V>, start: nat, n: nat)
    requires |ring| > 0
    ensures Elements(ring, start % |ring|, n) == Elements(ring, start, n)
  {
    forall i | 0 <= i < n ensures Elements(ring, start % |ring|, n)[i] == Elements(ring, start, n)[i] {
      SameSlot(start, i, |ring|);
    }
  }

  /** Writing the slot after the last message appends, as long as it is not the slot of the first. */
  lemma WriteAppends<V>(ring: seq<V>, start: nat, n: nat, v: V)
    requires n < |ring|
    ensures Elements(ring[(start + n) % |ring| := v], start, n + 1) == Elements(ring, start, n) + [v]
  {
    var ring' := ring[(start + n) % |ring| := v];
    forall i | 0 <= i < n ensures Elements(ring', start, n + 1)[i] == Elements(ring, start, n)[i] {
      DifferentSlots(start + i, start + n, |ring|);
    }
  }

  lemma StepDrops<V>(ring: seq<V>, start: nat, n: nat)
    requires |ring| > 0 && n > 0
    ensures Elements(ring, start + 1, n - 1) == Elements(ring, start, n)[1..]
  {
    forall i | 0 <= i < n - 1 ensures Elements(ring, start + 1, n - 1)[i] == Elements(ring, start, n)[1..][i] {
      assert start + 1 + i == start + (1 + i);
    }
  }

  /** The slot before the first message of a ring that is not full holds none of them. */
  lemma WriteBefore<V>(ring: seq<V>, start: nat, n: nat, v: V)
    requires n < |ring|
    ensures Elements(ring[start % |ring| := v], start + 1, n) == Elements(ring, start + 1, n)
  {
    var e, e' := Elements(ring, start + 1, n), Elements(ring[start % |ring| := v], start + 1, n);
    forall i | 0 <= i < n ensures e'[i] == e[i] {
      DifferentSlots(start, start + 1 + i, |ring|);
    }
  }
}
