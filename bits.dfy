/**
 * Bitwise `&` on non-negative numbers, and what it computes for the two kinds of masks the codec
 * uses: a run of low bits (`00011111`) keeps the value modulo a power of two, a run of high bits
 * (`11100000`) clears the bits below that power.
 */
module Bits {

  /** 2^k. */
  function Pow2(k: nat): (p: nat)
    ensures p >= 1
  {
    if k == 0 then 1 else 2 * Pow2(k - 1)
  }

  /** `a & b`, bit by bit from the least significant. */
  function And(a: nat, b: nat): (r: nat)
    ensures r <= a && r <= b
    decreases a
  {
    if a == 0 || b == 0 then 0
    else 2 * And(a / 2, b / 2) + (if a % 2 == 1 && b % 2 == 1 then 1 else 0)
  }

  /** Masking with 2^k - 1 keeps the value modulo 2^k. */
  lemma {:induction false} AndLowMask(a: nat, k: nat)
    ensures And(a, Pow2(k) - 1) == a % Pow2(k)
    decreases k
  {
    if k == 0 {
      assert Pow2(k) == 1;
    } else if a == 0 {
      DivModUnique(0, Pow2(k), 0, 0);
    } else {
      var half := Pow2(k - 1);
      var mask := Pow2(k) - 1;
      assert mask == 2 * half - 1;
      assert mask / 2 == half - 1 && mask % 2 == 1;
      assert And(a, mask) == 2 * And(a / 2, half - 1) + a % 2;
      AndLowMask(a / 2, k - 1);
      ModDouble(a, half);
      assert Pow2(k) == 2 * half;
      assert And(a, mask) == a % (2 * half);
    }
  }

  lemma {:induction false} Pow2Monotone(k: nat, n: nat)
    requires k <= n
    ensures Pow2(k) <= Pow2(n)
    decreases n
  {
    if k < n {
      Pow2Monotone(k, n - 1);
    }
  }

  /** Masking a value below 2^n with 2^n - 2^k clears its bits below 2^k. */
  lemma {:induction false} AndHighMask(a: nat, n: nat, k: nat)
    requires k <= n && a < Pow2(n)
    ensures Pow2(k) <= Pow2(n)
    ensures And(a, Pow2(n) - Pow2(k)) == a - a % Pow2(k)
  {
    Pow2Monotone(k, n);
    AndHighMaskClears(a, n, k);
    ClearLowRemainder(a, k);
  }

  /** `a` with its `k` lowest bits cleared. */
  function ClearLow(a: nat, k: nat): (r: nat)
    ensures r <= a
  {
    if k == 0 || a == 0 then a else 2 * ClearLow(a / 2, k - 1)
  }

  lemma {:induction false} AndHighMaskClears(a: nat, n: nat, k: nat)
    requires k <= n && a < Pow2(n)
    ensures Pow2(k) <= Pow2(n)
    ensures And(a, Pow2(n) - Pow2(k)) == ClearLow(a, k)
    decreases k
  {
    Pow2Monotone(k, n);
    if k == 0 {
      KeepAll(a, n);
    } else if a > 0 {
      HalfBelow(a, n);
      AndHighMaskClears(a / 2, n - 1, k - 1);
      AndHighMaskStep(a, n, k);
    }
  }

  lemma {:induction false} HalfBelow(a: nat, n: nat)
    requires 0 < n && a < Pow2(n)
    ensures a / 2 < Pow2(n - 1)
  {
    var h := Pow2(n - 1);
    assert a < 2 * h;
  }

  /** The mask 2^n - 1 keeps a value below 2^n whole. */
  lemma {:induction false} KeepAll(a: nat, n: nat)
    requires a < Pow2(n)
    ensures And(a, Pow2(n) - Pow2(0)) == ClearLow(a, 0)
  {
    AndLowMask(a, n);
    DivModUnique(a, Pow2(n), 0, a);
  }

  /** One bit of `AndHighMaskClears`: the mask is even, so the lowest bit is cleared and the rest shifts down. */
  lemma {:induction false} AndHighMaskStep(a: nat, n: nat, k: nat)
    requires 0 < k <= n && 0 < a
    requires Pow2(k - 1) <= Pow2(n - 1)
    requires And(a / 2, Pow2(n - 1) - Pow2(k - 1)) == ClearLow(a / 2, k - 1)
    ensures Pow2(k) <= Pow2(n)
    ensures And(a, Pow2(n) - Pow2(k)) == ClearLow(a, k)
  {
    var high, low := Pow2(n - 1), Pow2(k - 1);
    assert Pow2(n) == 2 * high && Pow2(k) == 2 * low;
    AndEven(a, high - low);
  }

  /** Clearing the `k` lowest bits subtracts the remainder modulo 2^k. */
  lemma {:induction false} ClearLowRemainder(a: nat, k: nat)
    ensures ClearLow(a, k) == a - a % Pow2(k)
    decreases k
  {
    if k == 0 {
      assert Pow2(k) == 1;
    } else if a == 0 {
      DivModUnique(0, Pow2(k), 0, 0);
    } else {
      ClearLowRemainder(a / 2, k - 1);
      HalfRemainder(a, Pow2(k - 1), ClearLow(a / 2, k - 1));
      assert Pow2(k) == 2 * Pow2(k - 1);
    }
  }

  /** An even mask clears the lowest bit and masks the rest shifted down. */
  lemma {:induction false} AndEven(a: nat, m: nat)
    requires a > 0
    ensures And(a, 2 * m) == 2 * And(a / 2, m)
  {
    if m > 0 {
      assert (2 * m) / 2 == m && (2 * m) % 2 == 0;
    }
  }

  /** Clearing the bits of a / 2 below p and doubling clears the bits of a below 2p. */
  lemma {:induction false} HalfRemainder(a: nat, p: nat, x: int)
    requires p >= 1 && x == a / 2 - (a / 2) % p
    ensures 2 * x == a - a % (2 * p)
  {
    ModDouble(a, p);
  }

  /** The remainder modulo 2p is twice the remainder of the half, plus the lowest bit. */
  lemma {:induction false} ModDouble(a: nat, p: nat)
    requires p >= 1
    ensures a % (2 * p) == 2 * ((a / 2) % p) + a % 2
  {
    var q, r := (a / 2) / p, (a / 2) % p;
    assert a / 2 == q * p + r;
    assert a == q * (2 * p) + (2 * r + a % 2);
    DivModUnique(a, 2 * p, q, 2 * r + a % 2);
  }

  /** Euclidean division is unique. */
  lemma {:induction false} DivModUnique(v: int, m: int, q: int, r: int)
    requires m > 0 && 0 <= r < m && v == q * m + r
    ensures v / m == q && v % m == r
  {
    var q', r' := v / m, v % m;
    assert v == q' * m + r';
    assert (q - q') * m == r' - r;
    if q - q' >= 1 {
      MulAtLeast(q - q', m);
    } else if q' - q >= 1 {
      MulAtLeast(q' - q, m);
    }
  }

  lemma {:induction false} MulAtLeast(d: int, m: int)
    requires d >= 1 && m > 0
    ensures d * m >= m
  {
  }
}
