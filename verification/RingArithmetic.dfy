/** Arithmetic of a ring whose size is a power of two.  The source writes
    `x & (n - 1)`; for such an `n` this is the remainder `x % n`. */
module RingArithmetic {

  predicate PowerOfTwo(n: nat) {
    n == 1 || (n > 1 && n % 2 == 0 && PowerOfTwo(n / 2))
  }

  lemma {:induction false} AddMultiple(x: int, q: int, n: int)
    requires n > 0
    ensures (x + q * n) % n == x % n
    decreases if q < 0 then -q else q
  {
    if q > 0 {
      AddMultiple(x, q - 1, n);
      assert x + q * n == (x + (q - 1) * n) + n;
      AddOne(x + (q - 1) * n, n);
    } else if q < 0 {
      AddMultiple(x, q + 1, n);
      assert x + (q + 1) * n == (x + q * n) + n;
      AddOne(x + q * n, n);
    }
  }

  /** One whole turn later a block has the same slot. */
  lemma AddOne(x: int, n: int)
    requires n > 0
    ensures (x + n) % n == x % n
  {
    DivisionIsUnique(x + n, n, x / n + 1, x % n);
  }

  lemma DivisionIsUnique(x: int, n: int, q: int, r: int)
    requires n > 0 && 0 <= r < n
    requires x == q * n + r
    ensures x / n == q && x % n == r
  {
    var q', r' := x / n, x % n;
    assert x == q' * n + r';
    assert (q - q') * n == r' - r;
    SmallMultiple(q - q', n, r' - r);
  }

  lemma SmallMultiple(k: int, n: int, d: int)
    requires n > 0 && k * n == d && -n < d < n
    ensures k == 0 && d == 0
  {
  }

  /** Two blocks less than `n` apart share a slot only if they are equal. */
  lemma SlotUnique(b: int, c: int, n: int)
    requires n > 0 && -n < b - c < n && b % n == c % n
    ensures b == c
  {
    assert b == (b / n) * n + b % n && c == (c / n) * n + c % n;
    assert (b / n - c / n) * n == b - c;
    SmallMultiple(b / n - c / n, n, b - c);
  }

  /** Walking `k` slots down from `slot`, the slot of block `b`, reaches the slot of block `c`. */
  lemma SlotBack(b: int, slot: int, k: int, n: int, c: int)
    requires n > 0 && slot == b % n && c == b - k
    ensures (slot - k) % n == c % n
  {
    assert c == (slot - k) + (b / n) * n;
    AddMultiple(slot - k, b / n, n);
  }

  /** Walking `k` slots up from `slot`, the slot of block `b`, reaches the slot of block `c`. */
  lemma SlotForward(b: int, slot: int, k: int, n: int, c: int)
    requires n > 0 && slot == b % n && c == b + k
    ensures (slot + k) % n == c % n
  {
    assert c == (slot + k) + (b / n) * n;
    AddMultiple(slot + k, b / n, n);
  }

  /** The slot of a number in a buffer ring of `64 * n` entries is its bit
      position within the slot of its block. */
  lemma PositionSplit(x: nat, n: nat)
    requires n > 0
    ensures x % (64 * n) == 64 * ((x / 64) % n) + x % 64
  {
    var b := x / 64;
    var r := 64 * (b % n) + x % 64;
    assert b == (b / n) * n + b % n;
    assert x == 64 * b + x % 64;
    assert x == (b / n) * (64 * n) + r by {
      assert 64 * ((b / n) * n) == (b / n) * (64 * n);
    }
    assert r < 64 * n by {
      assert b % n <= n - 1;
    }
    DivisionIsUnique(x, 64 * n, b / n, r);
  }
}
