/** Bit-level facts shared by the two power-of-two rings: the message queue's ring
    and the latency recorder's ring both turn a counter into a slot with a mask. */
module Bits {

  /** Bitwise AND of two non-negative integers, one binary digit at a time. */
  function And(a: nat, b: nat): nat {
    if a == 0 || b == 0 then 0 else 2 * And(a / 2, b / 2) + (a % 2) * (b % 2)
  }

  ghost predicate IsPowerOfTwo(n: nat)
    decreases n
  {
    n == 1 || (n >= 2 && n % 2 == 0 && IsPowerOfTwo(n / 2))
  }

  /** The slot a ticket lands in: tickets are dealt to `capacity` slots in turn. */
  function SlotOf(ticket: nat, capacity: nat): (i: nat)
    requires capacity > 0
    ensures i < capacity
  {
    if ticket < capacity then ticket else SlotOf(ticket - capacity, capacity)
  }

  lemma {:induction false} SlotOfIsRemainder(ticket: nat, capacity: nat)
    requires capacity > 0
    ensures SlotOf(ticket, capacity) == ticket % capacity
    decreases ticket
  {
    if ticket >= capacity {
      SlotOfIsRemainder(ticket - capacity, capacity);
      RemainderStep(ticket, capacity);
    }
  }

  lemma RemainderStep(a: nat, n: nat)
    requires n > 0 && a >= n
    ensures (a - n) % n == a % n
  {
    var q, r := (a - n) / n, (a - n) % n;
    assert a == n * (q + 1) + r;
    RemainderUnique(a, n, q + 1, r);
  }

  lemma RemainderUnique(a: nat, n: nat, q: nat, r: nat)
    requires n > 0 && a == n * q + r && r < n
    ensures a % n == r
  {
    var q', r' := a / n, a % n;
    assert a == n * q' + r';
    if q > q' {
      MultiplesApart(n, q, q');
    } else if q < q' {
      MultiplesApart(n, q', q);
    }
  }

  lemma {:induction false} MultiplesApart(n: nat, q: nat, q': nat)
    requires q > q'
    ensures n * q >= n * q' + n
    decreases q
  {
    assert n * q == n * (q - 1) + n;
    if q - 1 > q' {
      MultiplesApart(n, q - 1, q');
    }
  }

  lemma {:induction false} RemainderHalves(a: nat, n: nat)
    requires n >= 2 && n % 2 == 0
    ensures a % n == 2 * ((a / 2) % (n / 2)) + a % 2
  {
    var h := n / 2;
    var q, r := (a / 2) / h, (a / 2) % h;
    assert a == n * q + (2 * r + a % 2) by {
      assert a / 2 == h * q + r;
      assert a == 2 * (h * q + r) + a % 2;
      assert 2 * (h * q) == n * q;
    }
    RemainderUnique(a, n, q, 2 * r + a % 2);
  }

  /** For a power-of-two capacity the mask `capacity - 1` computes the remainder. */
  lemma {:induction false} MaskIsRemainder(pos: nat, capacity: nat)
    requires IsPowerOfTwo(capacity)
    ensures And(pos, capacity - 1) == pos % capacity
    decreases capacity
  {
    if capacity > 1 {
      RemainderHalves(pos, capacity);
      MaskIsRemainder(pos / 2, capacity / 2);
      assert (capacity - 1) / 2 == capacity / 2 - 1 && (capacity - 1) % 2 == 1;
    }
  }

  /** The masked index the code computes is the slot the models use. */
  lemma MaskIsSlot(pos: nat, capacity: nat)
    requires IsPowerOfTwo(capacity)
    ensures And(pos, capacity - 1) == SlotOf(pos, capacity)
  {
    MaskIsRemainder(pos, capacity);
    SlotOfIsRemainder(pos, capacity);
  }

  /** Consecutive tickets go to consecutive slots, around the ring. */
  lemma {:induction false} SlotAdvances(m: nat, n: nat)
    requires n > 0
    ensures SlotOf(m + 1, n) == if SlotOf(m, n) + 1 == n then 0 else SlotOf(m, n) + 1
  {
    if m >= n {
      SlotAdvances(m - n, n);
    }
  }

  /** Two tickets less than a lap apart share a slot only if they are the same ticket. */
  lemma {:induction false} SlotsDistinct(p: nat, q: nat, capacity: nat)
    requires capacity > 0 && p <= q < p + capacity
    requires SlotOf(p, capacity) == SlotOf(q, capacity)
    ensures p == q
    decreases q
  {
    if p >= capacity {
      SlotsDistinct(p - capacity, q - capacity, capacity);
    }
  }
}
