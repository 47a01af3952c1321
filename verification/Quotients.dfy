/**
 Quotients, remainders, products and powers of natural numbers, behind names that
 the verifier need not look into.
 */
module Quotients {

  function Quot(x: nat, d: nat): nat
    requires d > 0
  {
    x / d
  }

  function Rem(x: nat, d: nat): (r: nat)
    requires d > 0
    ensures r < d
  {
    x % d
  }

  function Pow2(n: nat): (p: nat)
    ensures p > 0
  {
    if n == 0 then 1 else 2 * Pow2(n - 1)
  }

  function Times(a: nat, b: nat): (p: nat) {
    Natural(a, b);
    a * b
  }

  lemma Natural(a: nat, b: nat)
    ensures a * b >= 0
  {
  }

  lemma Division(x: nat, d: nat)
    requires d > 0
    ensures x == Times(Quot(x, d), d) + Rem(x, d)
  {
  }

  lemma Monotone(a: nat, b: nat, d: nat)
    requires a <= b
    ensures Times(a, d) <= Times(b, d)
  {
  }

  lemma Successor(a: nat, d: nat)
    ensures Times(a + 1, d) == Times(a, d) + d
  {
  }

  lemma Small(d: nat)
    ensures Times(0, d) == 0 && Times(1, d) == d && Times(3, d) == 3 * d && Times(4, d) == 4 * d
  {
  }

  lemma Unique(q: nat, r: nat, d: nat)
    requires r < d
    ensures Quot(Times(q, d) + r, d) == q && Rem(Times(q, d) + r, d) == r
  {
    hide Quot, Rem, Times;
    var x := Times(q, d) + r;
    Division(x, d);
    var p := Quot(x, d);
    if p < q {
      Successor(p, d);
      Monotone(p + 1, q, d);
    }
    if q < p {
      Successor(q, d);
      Monotone(q + 1, p, d);
    }
  }

  lemma QuotSmall(x: nat, d: nat)
    requires d > 0 && x < 4 * d
    ensures Quot(x, d) < 4
  {
    hide Quot, Rem, Times;
    Division(x, d);
    if Quot(x, d) >= 4 {
      Monotone(4, Quot(x, d), d);
      Small(d);
    }
  }

  /** A multiple of a divisor, and how it grows. */
  lemma Multiples(q: nat, r: nat, d: nat)
    requires r < d
    ensures Rem(Times(q, d) + r, d) == r && Rem(Times(q, d) + d, d) == 0 && Times(q, d) + d == Times(q + 1, d)
  {
    hide Quot, Rem, Times;
    Unique(q, r, d);
    Successor(q, d);
    Unique(q + 1, 0, d);
  }
}
