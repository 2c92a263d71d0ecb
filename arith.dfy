/**
 * Natural-number arithmetic shared by the encoder and the modular-exponentiation
 * strategy: powers, and the facts about Euclidean division and remainder that the
 * base-62 round trip and the square-and-multiply loop rest on.
 */
module Arith {

  /** b raised to the power e, over unbounded naturals. */
  function Pow(b: nat, e: nat): (r: nat)
    ensures b > 0 ==> r > 0
  {
    if e == 0 then 1 else b * Pow(b, e - 1)
  }

  /** Quotient and remainder are unique: n == q * m + r with 0 <= r < m pins both down. */
  lemma DivModUnique(n: nat, m: nat, q: nat, r: nat)
    requires m > 0 && r < m && n == q * m + r
    ensures n / m == q && n % m == r
  {
    var q', r' := n / m, n % m;
    assert n == q' * m + r';
    if q' < q {
      assert (q - q') * m >= m by { MulAtLeast(q - q', m); }
      assert false;
    } else if q' > q {
      assert (q' - q) * m >= m by { MulAtLeast(q' - q, m); }
      assert false;
    }
  }

  lemma MulAtLeast(a: nat, m: nat)
    requires a >= 1
    ensures a * m >= m
  {
  }

  /** Adding a multiple of m does not change the remainder modulo m. */
  lemma ModAddMultiple(k: nat, x: nat, m: nat)
    requires m > 0
    ensures (k * m + x) % m == x % m
  {
    DivModUnique(k * m + x, m, k + x / m, x % m);
  }

  /** Reducing the left factor modulo m does not change a product's remainder. */
  lemma MulModLeft(x: nat, y: nat, m: nat)
    requires m > 0
    ensures (x % m * y) % m == (x * y) % m
  {
    var q := x / m;
    assert x * y == (q * y) * m + x % m * y;
    ModAddMultiple(q * y, x % m * y, m);
  }

  /** Reducing the right factor modulo m does not change a product's remainder. */
  lemma MulModRight(x: nat, y: nat, m: nat)
    requires m > 0
    ensures (x * (y % m)) % m == (x * y) % m
  {
    MulModLeft(y, x, m);
  }

  /** Reducing the base modulo m does not change a power's remainder. */
  lemma {:induction false} PowMod(b: nat, e: nat, m: nat)
    requires m > 0
    ensures Pow(b % m, e) % m == Pow(b, e) % m
  {
    if e > 0 {
      calc {
        Pow(b % m, e) % m;
        (b % m * Pow(b % m, e - 1)) % m;
        { MulModLeft(b, Pow(b % m, e - 1), m); }
        (b * Pow(b % m, e - 1)) % m;
        { MulModRight(b, Pow(b % m, e - 1), m); }
        (b * (Pow(b % m, e - 1) % m)) % m;
        { PowMod(b, e - 1, m); }
        (b * (Pow(b, e - 1) % m)) % m;
        { MulModRight(b, Pow(b, e - 1), m); }
        Pow(b, e) % m;
      }
    }
  }

  /** Squaring the base halves the exponent. */
  lemma {:induction false} PowSquare(b: nat, k: nat)
    ensures Pow(b * b, k) == Pow(b, 2 * k)
  {
    if k > 0 {
      PowSquare(b, k - 1);
      assert Pow(b, 2 * k) == b * (b * Pow(b, 2 * k - 2));
    }
  }
}
