/** Masking and 16-bit wrapping: the index arithmetic of a power-of-two ring. */
module Bits {

  const U16 := 0x1_0000

  function Pow2(k: nat): (r: nat)
    ensures r >= 1
  {
    if k == 0 then 1 else 2 * Pow2(k - 1)
  }

  ghost predicate IsPow2(n: nat) {
    exists k: nat :: n == Pow2(k)
  }

  /** C's `x & y` on unsigned operands, bit by bit. */
  function BitAnd(x: nat, y: nat): nat
    decreases x
  {
    if x == 0 || y == 0 then 0
    else 2 * BitAnd(x / 2, y / 2) + (if x % 2 == 1 && y % 2 == 1 then 1 else 0)
  }

  lemma HalveModulo(x: nat, p: nat)
    requires p >= 1
    ensures x % (2 * p) == 2 * ((x / 2) % p) + x % 2
  {
    var h := x / 2;
    var q, r := h / p, h % p;
    assert h == p * q + r;
    assert x == 2 * p * q + (2 * r + x % 2) by {
      assert 2 * (p * q) == 2 * p * q;
    }
    ModuloUnique(x, 2 * p, q, 2 * r + x % 2);
  }

  lemma MulSign(n: nat, k: int)
    requires n > 0
    ensures k >= 1 ==> n * k >= n
    ensures k <= -1 ==> n * k + n <= 0
  {
    if k >= 1 {
      assert n * k == n * (k - 1) + n;
    } else if k <= -1 {
      assert n * k == -(n * (-k - 1)) - n;
    }
  }

  lemma ModuloUnique(x: int, n: int, q: int, r: int)
    requires n > 0 && 0 <= r < n && x == n * q + r
    ensures x % n == r && x / n == q
  {
    var q', r' := x / n, x % n;
    assert n * (q - q') == r' - r by { assert n * (q - q') == n * q - n * q'; }
    MulSign(n, q - q');
  }

  /** One bit of the mask. */
  lemma MaskOneBit(x: nat, p: nat)
    requires x > 0 && p >= 1
    ensures BitAnd(x, 2 * p - 1) == 2 * BitAnd(x / 2, p - 1) + x % 2
  {
    assert (2 * p - 1) / 2 == p - 1 && (2 * p - 1) % 2 == 1;
  }

  /** Masking with `entries - 1` is reduction modulo `entries`, for powers of two. */
  lemma {:induction false} MaskIsModulo(x: nat, k: nat)
    ensures BitAnd(x, Pow2(k) - 1) == x % Pow2(k)
    decreases k
  {
    if k == 0 {
    } else if x == 0 {
      ModuloUnique(0, Pow2(k), 0, 0);
    } else {
      var p := Pow2(k - 1);
      assert Pow2(k) == 2 * p;
      MaskOneBit(x, p);
      MaskIsModulo(x / 2, k - 1);
      HalveModulo(x, p);
    }
  }

  lemma {:induction false} Pow2Adds(j: nat, k: nat)
    ensures Pow2(j + k) == Pow2(j) * Pow2(k)
  {
    if j > 0 {
      Pow2Adds(j - 1, k);
      assert 2 * (Pow2(j - 1) * Pow2(k)) == 2 * Pow2(j - 1) * Pow2(k);
    }
  }

  /** A smaller power of two divides a larger one. */
  lemma {:induction false} Pow2Factor(j: nat, k: nat) returns (m: nat)
    requires Pow2(j) <= Pow2(k)
    ensures m * Pow2(j) == Pow2(k)
    decreases j
  {
    if j == 0 {
      m := Pow2(k);
    } else {
      m := Pow2Factor(j - 1, k - 1);
      assert m * (2 * Pow2(j - 1)) == 2 * (m * Pow2(j - 1));
    }
  }

  lemma QuotientRegroups(m: int, n: int, d: int, w: int)
    requires n > 0
    ensures (m * n) * d + w == n * (m * d + w / n) + w % n
  {
    assert w == n * (w / n) + w % n;
    assert n * (m * d) == (m * n) * d;
    assert n * (m * d + w / n) == n * (m * d) + n * (w / n);
  }

  /** The 16-bit wrap is invisible below a power of two that divides 65536. */
  lemma WrapThenModulo(t: int, n: nat)
    requires IsPow2(n) && n <= U16
    ensures (t % U16) % n == t % n
  {
    var k :| n == Pow2(k);
    assert Pow2(16) == U16 by { assert Pow2(8) == 256; Pow2Adds(8, 8); }
    var m := Pow2Factor(k, 16);
    var w, d := t % U16, t / U16;
    assert t == U16 * d + w;
    QuotientRegroups(m, n, d, w);
    ModuloUnique(t, n, m * d + w / n, w % n);
  }

  /** Adding before or after a reduction gives the same residue. */
  lemma ModuloAbsorbs(x: int, y: int, n: nat)
    requires n > 0
    ensures (x % n + y) % n == (x + y) % n
  {
    var z := x % n + y;
    var q := x / n + z / n;
    assert x + y == n * q + z % n by {
      assert n * q == n * (x / n) + n * (z / n);
      assert x == n * (x / n) + x % n;
      assert z == n * (z / n) + z % n;
    }
    ModuloUnique(x + y, n, q, z % n);
  }

  /** Two positions closer than `n` never share a slot. */
  lemma CloseResiduesDiffer(x: int, y: int, n: nat)
    requires n > 0 && x < y < x + n
    ensures x % n != y % n
  {
    var d := y / n - x / n;
    assert n * d == n * (y / n) - n * (x / n);
    MulSign(n, d);
  }

  lemma ModuloShift(x: int, n: nat)
    requires n > 0
    ensures (x + n) % n == x % n
  {
    assert x + n == n * (x / n + 1) + x % n by { assert n * (x / n + 1) == n * (x / n) + n; }
    ModuloUnique(x + n, n, x / n + 1, x % n);
  }
}
