/** Arithmetic of wrapping indices, shared by the buffers addressed by a serial number. */
module Modular {
  /** Two numbers less than one period apart share a slot only if they are equal. */
  lemma SlotsDiffer(a: nat, b: nat, n: nat)
    requires 0 < n && a < b < a + n
    ensures a % n != b % n
  {
    var q := b / n - a / n;
    assert b - a == n * q + (b % n - a % n);
    assert q >= 1 ==> n * q >= n;
    assert q <= 0 ==> n * q <= 0;
  }

  /** Going round once comes back to the same slot. */
  lemma OneRound(a: nat, n: nat)
    requires 0 < n
    ensures (a + n) % n == a % n
  {
    var q := (a + n) / n - a / n - 1;
    assert n * q == a % n - (a + n) % n;
    assert q >= 1 ==> n * q >= n;
    assert q <= -1 ==> n * q + n <= 0;
  }
}
