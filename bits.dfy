/** Python's bitwise operators `|`, `^`, `&` and `int.bit_length()` on non-negative
    integers, defined bit by bit from the least significant end. */
module Bits {

  function Pow2(k: nat): (r: nat)
    ensures r >= 1
  {
    if k == 0 then 1 else 2 * Pow2(k - 1)
  }

  /** `a | b` */
  function Or(a: nat, b: nat): nat
    decreases a + b
  {
    if a == 0 && b == 0 then 0
    else 2 * Or(a / 2, b / 2) + (if a % 2 == 1 || b % 2 == 1 then 1 else 0)
  }

  /** `a ^ b` */
  function Xor(a: nat, b: nat): nat
    decreases a + b
  {
    if a == 0 && b == 0 then 0
    else 2 * Xor(a / 2, b / 2) + (if a % 2 != b % 2 then 1 else 0)
  }

  /** `a & b` */
  function And(a: nat, b: nat): nat
    decreases a + b
  {
    if a == 0 && b == 0 then 0
    else 2 * And(a / 2, b / 2) + (if a % 2 == 1 && b % 2 == 1 then 1 else 0)
  }

  /** `n.bit_length()`: the number of binary digits of `n`, 0 for 0. */
  function BitLength(n: nat): nat {
    if n == 0 then 0 else 1 + BitLength(n / 2)
  }

  /** `Xor` splits into the xor of the higher bits and the xor of the lowest bits. */
  lemma XorSplit(a: nat, b: nat)
    ensures Xor(a, b) / 2 == Xor(a / 2, b / 2)
    ensures Xor(a, b) % 2 == (if a % 2 != b % 2 then 1 else 0)
  {
  }

  lemma {:induction false} XorZero(a: nat)
    ensures Xor(a, 0) == a && Xor(0, a) == a
    decreases a
  {
    if a != 0 {
      XorZero(a / 2);
    }
  }

  /** `(a ^ b) ^ b == a` */
  lemma {:induction false} XorInvolution(a: nat, b: nat)
    ensures Xor(Xor(a, b), b) == a
    decreases a + b
  {
    var x := Xor(a, b);
    if a == 0 && b == 0 {
    } else if x == 0 && b == 0 {
      XorZero(a);
    } else {
      XorSplit(a, b);
      XorInvolution(a / 2, b / 2);
      assert Xor(x, b) == 2 * Xor(x / 2, b / 2) + (if x % 2 != b % 2 then 1 else 0);
    }
  }

  /** Xor of two numbers below `2^k` stays below `2^k`. */
  lemma {:induction false} XorBelow(a: nat, b: nat, k: nat)
    requires a < Pow2(k) && b < Pow2(k)
    ensures Xor(a, b) < Pow2(k)
  {
    if k > 0 && !(a == 0 && b == 0) {
      XorBelow(a / 2, b / 2, k - 1);
    }
  }

  /** `2^k | a == 2^k + a` when `a < 2^k`. */
  lemma {:induction false} OrHighBit(a: nat, k: nat)
    requires a < Pow2(k)
    ensures Or(Pow2(k), a) == Pow2(k) + a
  {
    if k > 0 {
      OrHighBit(a / 2, k - 1);
    }
  }

  /** `(2^k + a) ^ b == 2^k + (a ^ b)` when `a, b < 2^k`. */
  lemma {:induction false} XorHighBit(a: nat, b: nat, k: nat)
    requires a < Pow2(k) && b < Pow2(k)
    ensures Xor(Pow2(k) + a, b) == Pow2(k) + Xor(a, b)
  {
    if k > 0 {
      var p := Pow2(k - 1);
      XorHighBit(a / 2, b / 2, k - 1);
      assert (2 * p + a) / 2 == p + a / 2 && (2 * p + a) % 2 == a % 2;
      assert Xor(2 * p + a, b) == 2 * Xor(p + a / 2, b / 2) + (if a % 2 != b % 2 then 1 else 0);
      XorSplit(a, b);
    }
  }

  lemma MulBelowOne(d: int, x: int)
    requires d > 0 && d * x < d
    ensures x <= 0
  {
  }

  /** Euclidean division is unique: `n == d * q + r` with `0 <= r < d` fixes `n / d` and `n % d`. */
  lemma DivModUnique(n: nat, d: nat, q: nat, r: nat)
    requires d > 0 && r < d && n == d * q + r
    ensures n / d == q && n % d == r
  {
    var q', r' := n / d, n % d;
    assert d * (q - q') == r' - r;
    assert d * (q' - q) == r - r';
    MulBelowOne(d, q - q');
    MulBelowOne(d, q' - q);
  }

  /** Peeling the lowest digit in base `b`: `(n / b) % m * b + n % b == n % (m * b)`. */
  lemma ModPeel(n: nat, b: nat, m: nat)
    requires b > 0 && m > 0
    ensures (n / b) % m * b + n % b == n % (m * b)
    ensures n / b / m == n / (m * b)
  {
    PeelDigits(n, b, m, n / b, n % b, n / b / m, n / b % m);
  }

  lemma PeelDigits(n: nat, b: nat, m: nat, q: nat, r: nat, hi: nat, lo: nat)
    requires b > 0 && m > 0 && r < b && lo < m
    requires n == b * q + r && q == m * hi + lo
    ensures n / (m * b) == hi && n % (m * b) == lo * b + r
  {
    Compose(n, b, q, r, m, hi, lo);
    PeelBelow(lo, b, r, m);
    DivModUnique(n, m * b, hi, lo * b + r);
  }

  lemma Compose(n: int, b: int, q: int, r: int, m: int, hi: int, lo: int)
    requires n == b * q + r && q == m * hi + lo
    ensures n == (m * b) * hi + (lo * b + r)
  {
  }

  lemma PeelBelow(lo: nat, b: nat, r: nat, m: nat)
    requires lo < m && r < b
    ensures lo * b + r < m * b
  {
    assert lo * b <= (m - 1) * b;
  }

  /** `n & (2^k - 1) == n % 2^k`: the mask keeps the `k` lowest bits. */
  lemma {:induction false} AndLowMask(n: nat, k: nat)
    ensures And(n, Pow2(k) - 1) == n % Pow2(k)
  {
    if k == 0 {
      AndZero(n);
    } else {
      AndLowMask(n / 2, k - 1);
      MaskStep(n, Pow2(k - 1));
    }
  }

  /** One bit of `AndLowMask`: from the mask `p - 1` on `n / 2` to the mask `2 * p - 1` on `n`. */
  lemma MaskStep(n: nat, p: nat)
    requires p >= 1
    requires And(n / 2, p - 1) == (n / 2) % p
    ensures And(n, 2 * p - 1) == n % (2 * p)
  {
    MaskAnd(n, p);
    MaskPeel(n, p);
  }

  lemma MaskAnd(n: nat, p: nat)
    requires p >= 1
    requires And(n / 2, p - 1) == (n / 2) % p
    ensures And(n, 2 * p - 1) == 2 * ((n / 2) % p) + n % 2
  {
    var mask := 2 * p - 1;
    assert mask / 2 == p - 1 && mask % 2 == 1 by {
      DivModUnique(mask, 2, p - 1, 1);
    }
    AndOdd(n, mask);
  }

  lemma MaskPeel(n: nat, p: nat)
    requires p >= 1
    ensures 2 * ((n / 2) % p) + n % 2 == n % (2 * p)
  {
    ModPeel(n, 2, p);
    assert p * 2 == 2 * p;
  }

  /** `a & b` with `b` odd keeps the lowest bit of `a`. */
  lemma AndOdd(a: nat, b: nat)
    requires b % 2 == 1
    ensures And(a, b) == 2 * And(a / 2, b / 2) + a % 2
  {
  }

  lemma {:induction false} AndZero(n: nat)
    ensures And(n, 0) == 0 && And(0, n) == 0
    decreases n
  {
    if n != 0 {
      AndZero(n / 2);
    }
  }

  /** `n.bit_length() == k` exactly when `2^(k-1) <= n < 2^k`. */
  lemma {:induction false} BitLengthRange(n: nat, k: nat)
    requires k >= 1
    ensures BitLength(n) == k <==> Pow2(k - 1) <= n < Pow2(k)
  {
    if k == 1 {
      if n >= 2 {
        BitLengthPositive(n / 2);
      }
    } else if n >= 2 {
      BitLengthRange(n / 2, k - 1);
    } else if n == 1 {
      assert Pow2(k - 1) >= 2 by {
        Pow2Grows(k - 1);
      }
    }
  }

  lemma BitLengthPositive(n: nat)
    requires n >= 1
    ensures BitLength(n) >= 1
  {
  }

  lemma Pow2Grows(k: nat)
    requires k >= 1
    ensures Pow2(k) >= 2
  {
  }

  /** `a ^ b == 0` exactly when `a == b`. */
  lemma {:induction false} XorZeroIff(a: nat, b: nat)
    ensures Xor(a, b) == 0 <==> a == b
    decreases a + b
  {
    if !(a == 0 && b == 0) {
      XorZeroIff(a / 2, b / 2);
    }
  }
}
