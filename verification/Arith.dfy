/** Products, quotients and remainders of naturals behind names, so that a proof that only
    needs their laws can hide their definitions, and the signs of real products. */
module Arith {

  function Times(a: nat, b: nat): nat { a * b }

  function Quot(k: nat, m: nat): nat
    requires m > 0
  {
    k / m
  }

  function Rem(k: nat, m: nat): nat
    requires m > 0
  {
    k % m
  }

  lemma Units(a: nat)
    ensures Times(a, 1) == a && Times(1, a) == a && Times(0, a) == 0 && Times(a, 0) == 0
  {
  }

  lemma Commute(a: nat, b: nat)
    ensures Times(a, b) == Times(b, a)
  {
  }

  lemma Associate(a: nat, b: nat, c: nat)
    ensures Times(a, Times(b, c)) == Times(Times(a, b), c)
  {
  }

  lemma Distribute(a: nat, b: nat, c: nat)
    ensures Times(a + b, c) == Times(a, c) + Times(b, c)
  {
  }

  lemma Monotone(a: nat, b: nat, m: nat)
    requires a <= b
    ensures Times(a, m) <= Times(b, m)
  {
    hide Times;
    Distribute(a, b - a, m);
  }

  lemma MonotoneStrict(a: nat, b: nat, m: nat)
    requires a < b
    ensures Times(a, m) + m <= Times(b, m)
  {
    hide Times;
    Distribute(a, 1, m);
    Units(m);
    Monotone(a + 1, b, m);
  }

  lemma Bound(a: nat, b: nat, n: nat, m: nat)
    requires a < n && b < m
    ensures Times(a, m) + b < Times(n, m)
  {
    hide Times;
    MonotoneStrict(a, n, m);
  }

  lemma Recompose(k: nat, m: nat)
    requires m > 0
    ensures Times(Quot(k, m), m) + Rem(k, m) == k && Rem(k, m) < m
  {
  }

  /** A quotient and a remainder are determined by what they make up. */
  lemma Unique(a: nat, b: nat, c: nat, d: nat, m: nat)
    requires b < m && d < m && Times(a, m) + b == Times(c, m) + d
    ensures a == c && b == d
  {
    hide Times;
    if a < c { MonotoneStrict(a, c, m); }
    if c < a { MonotoneStrict(c, a, m); }
  }

  lemma Recover(a: nat, b: nat, m: nat)
    requires b < m
    ensures Quot(Times(a, m) + b, m) == a && Rem(Times(a, m) + b, m) == b
  {
    hide Times, Quot, Rem;
    var k := Times(a, m) + b;
    Recompose(k, m);
    Unique(a, b, Quot(k, m), Rem(k, m), m);
  }

  lemma Decompose(k: nat, n: nat, m: nat)
    requires k < Times(n, m)
    ensures m > 0 && Quot(k, m) < n && Rem(k, m) < m && Times(Quot(k, m), m) + Rem(k, m) == k
  {
    hide Times, Quot, Rem;
    if m == 0 { Units(n); }
    Recompose(k, m);
    if n <= Quot(k, m) { Monotone(n, Quot(k, m), m); }
  }

  lemma Cancel(a: nat, b: nat, m: nat)
    ensures Times(a, m) == Times(b, m) <==> a == b || m == 0
  {
    hide Times;
    Units(a);
    Units(b);
    if a < b { MonotoneStrict(a, b, m); }
    if b < a { MonotoneStrict(b, a, m); }
  }

  /** Scaling a real by a positive one keeps its sign. */
  lemma SignOfProduct(r: real, d: real)
    requires 0.0 < d
    ensures 0.0 <= r * d <==> 0.0 <= r
  {
  }

  lemma ProductNonnegative(x: real, y: real)
    requires 0.0 <= x && 0.0 <= y
    ensures 0.0 <= x * y
  {
  }

  lemma Regrouped(x: real, y: real, z: real)
    ensures (x * y) * z == x * (y * z)
  {
  }
}
