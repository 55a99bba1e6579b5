/** Unsigned machine words as bounded numbers: shifts and single bits, with their overflow written out. */
module Words {
  function Pow2(n: nat): (p: nat)
    ensures p > 0
  {
    if n == 0 then 1 else 2 * Pow2(n - 1)
  }

  type uint64 = m: nat | m < Pow2(64)
  const ALL_ONES: uint64 := Pow2(64) - 1

  /** (m >> k) & 1 */
  predicate Bit(m: nat, k: nat) {
    if k == 0 then m % 2 == 1 else Bit(m / 2, k - 1)
  }

  /** m | (1 << k) */
  function SetBit(m: nat, k: nat): nat {
    if k == 0 then if m % 2 == 1 then m else m + 1
    else 2 * SetBit(m / 2, k - 1) + m % 2
  }

  /** m >> k */
  function ShiftRight(m: nat, k: nat): nat {
    if k == 0 then m else ShiftRight(m / 2, k - 1)
  }

  /** m << k on 64 bits: what is shifted out is lost. */
  function ShiftLeft(m: uint64, k: nat): uint64
    decreases k
  {
    if k == 0 then m else ShiftLeft((2 * m) % Pow2(64), k - 1)
  }

  lemma {:induction false} SetBitBounded(m: nat, k: nat, n: nat)
    requires m < Pow2(n) && k < n
    ensures SetBit(m, k) < Pow2(n)
  {
    if k > 0 {
      assert m / 2 < Pow2(n - 1);
      SetBitBounded(m / 2, k - 1, n - 1);
    }
  }

  lemma {:induction false} SetBitSetsOne(m: nat, k: nat, j: nat)
    ensures Bit(SetBit(m, k), j) <==> j == k || Bit(m, j)
  {
    if k > 0 && j > 0 {
      assert SetBit(m, k) / 2 == SetBit(m / 2, k - 1);
      SetBitSetsOne(m / 2, k - 1, j - 1);
    } else if k == 0 && j > 0 {
      assert SetBit(m, k) / 2 == m / 2;
    }
  }

  lemma {:induction false} ShiftRightBits(m: nat, k: nat, j: nat)
    ensures Bit(ShiftRight(m, k), j) == Bit(m, j + k)
    ensures ShiftRight(m, k) <= m
    ensures k > 0 && m > 0 ==> ShiftRight(m, k) < m
  {
    if k > 0 { ShiftRightBits(m / 2, k - 1, j); }
  }

  lemma {:induction false} BitsBelow(m: nat, n: nat, k: nat)
    requires m < Pow2(n) && k >= n
    ensures !Bit(m, k)
  {
    if k > 0 {
      if n == 0 { BitsBelow(m / 2, 0, k - 1); } else { BitsBelow(m / 2, n - 1, k - 1); }
    }
  }

  lemma DoubleBits(m: uint64, j: nat)
    requires j < 64
    ensures Bit((2 * m) % Pow2(64), j) == (j > 0 && Bit(m, j - 1))
  {
    DoubledBits(m, 64, j);
  }

  /** Doubling a word of n bits loses the highest one. */
  lemma DoubledBits(m: nat, n: nat, j: nat)
    requires 0 < n && m < Pow2(n) && j < n
    ensures Bit((2 * m) % Pow2(n), j) == (j > 0 && Bit(m, j - 1))
  {
    var half := Pow2(n - 1);
    var low := if m < half then m else m - half;
    Wraps(2 * m, Pow2(n));
    assert (2 * m) % Pow2(n) == 2 * low;
    EvenBits(low, j);
    if j > 0 && m >= half { AddHighBit(low, n - 1, j - 1); }
  }

  lemma EvenBits(m: nat, j: nat)
    ensures Bit(2 * m, j) == (j > 0 && Bit(m, j - 1))
  {
    assert (2 * m) / 2 == m && (2 * m) % 2 == 0;
  }

  lemma Wraps(a: nat, p: nat)
    requires 0 < p && a < 2 * p
    ensures a % p == if a < p then a else a - p
  {
  }

  lemma {:induction false} AddHighBit(m: nat, n: nat, j: nat)
    requires j < n
    ensures Bit(m + Pow2(n), j) == Bit(m, j)
  {
    assert (m + Pow2(n)) % 2 == m % 2 && (m + Pow2(n)) / 2 == m / 2 + Pow2(n - 1);
    if j > 0 { AddHighBit(m / 2, n - 1, j - 1); }
  }

  lemma {:induction false} ShiftLeftBits(m: uint64, k: nat, j: nat)
    requires j < 64
    ensures Bit(ShiftLeft(m, k), j) == (j >= k && Bit(m, j - k))
    decreases k
  {
    if k > 0 {
      ShiftLeftBits((2 * m) % Pow2(64), k - 1, j);
      if j >= k - 1 { DoubleBits(m, j - (k - 1)); }
    }
  }

  /** A word is its bits. */
  lemma {:induction false} SameBits(a: nat, b: nat, n: nat)
    requires a < Pow2(n) && b < Pow2(n)
    requires forall k | 0 <= k < n :: Bit(a, k) == Bit(b, k)
    ensures a == b
  {
    if n > 0 {
      assert Bit(a, 0) == Bit(b, 0);
      forall k | 0 <= k < n - 1 ensures Bit(a / 2, k) == Bit(b / 2, k) {
        assert Bit(a, k + 1) == Bit(b, k + 1);
      }
      SameBits(a / 2, b / 2, n - 1);
    }
  }

  lemma {:induction false} AllOnesBits(n: nat, k: nat)
    ensures Bit(Pow2(n) - 1, k) <==> k < n
  {
    if n == 0 {
      BitsBelow(0, 0, k);
    } else if k > 0 {
      assert (Pow2(n) - 1) / 2 == Pow2(n - 1) - 1;
      AllOnesBits(n - 1, k - 1);
    }
  }
}
