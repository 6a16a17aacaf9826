/** Bitwise AND on natural numbers, as the driver uses it: to reduce a sequence
    number to a slot index, and to test a size for being a power of two. */
module Bits {

  /** The number of values of a 32-bit unsigned integer. */
  const U32: nat := 0x1_0000_0000

  /** The number of values of a 64-bit unsigned integer. */
  const U64: nat := 0x1_0000_0000_0000_0000

  function Pow2(k: nat): (r: nat)
    ensures r >= 1
  {
    if k == 0 then 1 else 2 * Pow2(k - 1)
  }

  function And(a: nat, b: nat): (r: nat)
    ensures r <= a && r <= b
    decreases a
  {
    if a == 0 || b == 0 then 0
    else 2 * And(a / 2, b / 2) + (if a % 2 == 1 && b % 2 == 1 then 1 else 0)
  }

  ghost predicate IsPow2(n: nat) {
    exists k: nat :: n == Pow2(k)
  }

  /** Halving commutes with reduction modulo an even number. */
  lemma HalfMod(a: nat, h: nat)
    requires h >= 1
    ensures (a / 2) % h == (a % (2 * h)) / 2
    ensures a % (2 * h) == 2 * ((a / 2) % h) + a % 2
  {
    var q, r := (a / 2) / h, (a / 2) % h;
    assert a == 2 * (q * h + r) + a % 2;
    assert a == (2 * h) * q + (2 * r + a % 2) by {
      assert 2 * (q * h) == (2 * h) * q;
    }
    ModUnique(a, 2 * h, q, 2 * r + a % 2);
  }

  /** A nonzero multiple of `m` is at least `m` away from zero. */
  lemma MulGap(m: int, x: int)
    requires m >= 1
    ensures x >= 1 ==> m * x >= m
    ensures x <= -1 ==> m * x <= -m
  {
    assert x >= 1 ==> m * (x - 1) >= 0;
    assert x <= -1 ==> m * (x + 1) <= 0;
  }

  /** Quotient and remainder are unique. */
  lemma ModUnique(a: int, m: nat, q: int, r: int)
    requires m >= 1 && a == m * q + r && 0 <= r < m
    ensures a % m == r && a / m == q
  {
    var q', r' := a / m, a % m;
    assert a == m * q' + r';
    assert m * (q - q') == r' - r;
    MulGap(m, q - q');
  }

  /** Masking with 2^k - 1 is reduction modulo 2^k: `seq & num_fences_mask`. */
  lemma {:induction false} MaskIsMod(a: nat, k: nat)
    ensures And(a, Pow2(k) - 1) == a % Pow2(k)
    decreases k
  {
    if k > 0 {
      var h := Pow2(k - 1);
      var m := 2 * h - 1;
      assert m / 2 == h - 1 && m % 2 == 1;
      HalfMod(a, h);
      MaskIsMod(a / 2, k - 1);
      if a > 0 {
        assert And(a, m) == 2 * And(a / 2, h - 1) + a % 2;
      }
    }
  }

  /** The test `(n & (n - 1)) == 0` accepts exactly the powers of two, and zero. */
  lemma {:induction false} PowerOfTwoTest(n: nat)
    ensures n == 0 || (And(n, n - 1) == 0 <==> IsPow2(n))
    decreases n
  {
    if n == 1 {
      assert n == Pow2(0);
    } else if n >= 2 && n % 2 == 0 {
      PowerOfTwoTest(n / 2);
      assert (n - 1) / 2 == n / 2 - 1 && (n - 1) % 2 == 1;
      HalfIsPow2(n);
    } else if n >= 3 {
      assert (n - 1) / 2 == n / 2;
      AndSelf(n / 2);
      OddIsNotPow2(n);
    }
  }

  lemma HalfIsPow2(n: nat)
    requires n >= 2 && n % 2 == 0
    ensures IsPow2(n) <==> IsPow2(n / 2)
  {
    if IsPow2(n / 2) {
      var k: nat :| n / 2 == Pow2(k);
      assert n == Pow2(k + 1);
    }
    if IsPow2(n) {
      var k: nat :| n == Pow2(k);
      assert n / 2 == Pow2(k - 1);
    }
  }

  lemma OddIsNotPow2(n: nat)
    requires n >= 3 && n % 2 == 1
    ensures !IsPow2(n)
  {
    assert forall k: nat :: Pow2(k) == 1 || Pow2(k) % 2 == 0;
  }

  lemma {:induction false} AndSelf(n: nat)
    ensures And(n, n) == n
  {
    if n > 0 {
      AndSelf(n / 2);
    }
  }

  lemma {:induction false} Pow2Add(j: nat, k: nat)
    ensures Pow2(j + k) == Pow2(j) * Pow2(k)
  {
    if j > 0 {
      Pow2Add(j - 1, k);
    }
  }

  /** Truncating to 32 bits first does not change the slot. */
  lemma ModOfMod(a: nat, m: nat, c: nat)
    requires m >= 1 && c >= 1
    ensures (a % (m * c)) % m == a % m
  {
    var b := m * c;
    var q, r := a / b, a % b;
    var s, t := r / m, r % m;
    assert a == m * (c * q + s) + t by {
      assert b * q == m * (c * q);
      assert m * (c * q + s) == m * (c * q) + m * s;
    }
    ModUnique(a, m, c * q + s, t);
  }

  /** Two numbers less than `m` apart have the same residue only if equal. */
  lemma ModInjective(a: int, b: int, m: nat)
    requires m >= 1 && a % m == b % m && a <= b < a + m
    ensures a == b
  {
    var qa, qb := a / m, b / m;
    assert a == m * qa + a % m && b == m * qb + b % m;
    assert b - a == m * (qb - qa);
    MulGap(m, qb - qa);
  }

  /** Stepping a residue is the residue of the step. */
  lemma ModStep(a: int, d: int, m: nat)
    requires m >= 1
    ensures (a % m + d) % m == (a + d) % m
  {
    var q := a / m;
    var q', r' := (a + d) / m, (a + d) % m;
    assert a % m + d == m * (q' - q) + r';
    ModUnique(a % m + d, m, q' - q, r');
  }

  /** The difference of two residues recovers a small difference. */
  lemma ModDifference(a: int, b: int, m: nat)
    requires m >= 1 && 0 <= b - a < m
    ensures (b % m - a % m) % m == b - a
  {
    var qa, qb := a / m, b / m;
    assert b % m - a % m == m * (qa - qb) + (b - a);
    ModUnique(b % m - a % m, m, qa - qb, b - a);
  }

  lemma Pow2Of32()
    ensures Pow2(32) == U32
  {
    assert Pow2(8) == 256;
    Pow2Add(8, 8);
    Pow2Add(16, 16);
  }

  lemma {:induction false} Pow2Increases(j: nat, k: nat)
    requires j < k
    ensures 2 * Pow2(j) <= Pow2(k)
    decreases k
  {
    if j < k - 1 {
      Pow2Increases(j, k - 1);
    }
  }

  /** The powers of two that fit 32 bits, and 2^30 among them. */
  lemma Pow2Of30()
    ensures Pow2(30) == 0x4000_0000 && Pow2(31) == 0x8000_0000
  {
    Pow2Of32();
    assert Pow2(32) == 2 * Pow2(31) && Pow2(31) == 2 * Pow2(30);
  }
}
