/**
 The arithmetic behind rotating a buffer in place by cycles
 (core/containers/TPodFifo.hpp, pack; core/bit_utils/bit_ops.hpp,
 highest_common_factor): steps of a fixed length around a ring fall into as
 many closed paths as the common factor of the length and the step.
 */
module Cycles {

  predicate DividesBy(d: int, k: int, n: int) {
    n == d * k
  }

  ghost predicate Divides(d: int, n: int) {
    exists k :: DividesBy(d, k, n)
  }

  lemma DividesMix(d: int, a: int, b: int, q: int)
    requires Divides(d, a) && Divides(d, b)
    ensures Divides(d, a * q + b)
  {
    var i :| DividesBy(d, i, a);
    var j :| DividesBy(d, j, b);
    assert a * q + b == d * (i * q + j) by { assert d * i * q + d * j == d * (i * q + j); }
    assert DividesBy(d, i * q + j, a * q + b);
  }

  /** Euclid's loop. The result divides both numbers and is a combination of them. */
  method HighestCommonFactor(a0: nat, b0: nat) returns (g: nat, ghost x: int, ghost y: int)
    ensures Divides(g, a0) && Divides(g, b0) && g == x * a0 + y * b0
    ensures a0 > 0 || b0 > 0 ==> g > 0
  {
    var a, b := a0, b0;
    ghost var x', y' := 0, 1;
    x, y := 1, 0;
    ghost var trail: seq<(nat, nat)> := [(a0, b0)];
    while b != 0
      invariant a == x * a0 + y * b0 && b == x' * a0 + y' * b0
      invariant a0 > 0 || b0 > 0 ==> a > 0 || b > 0
      invariant forall d: int :: Divides(d, a) && Divides(d, b) ==> Divides(d, a0) && Divides(d, b0)
      decreases b
    {
      var r := a % b;
      ghost var q := a / b;
      Remainder(a, b, q, r, x, y, x', y', a0, b0);
      forall d: int | Divides(d, b) && Divides(d, r) ensures Divides(d, a) && Divides(d, b) { DividesMix(d, b, r, q); }
      x, y, x', y' := x', y', x - q * x', y - q * y';
      a, b := b, r;
    }
    assert DividesBy(a, 1, a) && DividesBy(a, 0, 0);
    g := a;
  }

  lemma Remainder(a: nat, b: nat, q: int, r: nat, x: int, y: int, x': int, y': int, a0: int, b0: int)
    requires b > 0 && q == a / b && r == a % b && a == x * a0 + y * b0 && b == x' * a0 + y' * b0
    ensures a == b * q + r && r == (x - q * x') * a0 + (y - q * y') * b0
  {
    assert (x - q * x') * a0 == x * a0 - q * (x' * a0);
    assert (y - q * y') * b0 == y * b0 - q * (y' * b0);
    assert q * b == q * (x' * a0) + q * (y' * b0);
  }

  /** One step around a ring of `n`. */
  function Step(n: nat, r: nat, i: nat): (j: nat)
    requires 0 < r < n && i < n
    ensures j < n
  {
    if i + r >= n then i + r - n else i + r
  }

  lemma StepInjective(n: nat, r: nat, i: nat, j: nat)
    requires 0 < r < n && i < n && j < n && Step(n, r, i) == Step(n, r, j)
    ensures i == j
  {
  }

  /** A path from `c`: each place one step after the last, none twice. */
  ghost predicate Path(n: nat, r: nat, c: nat, path: seq<nat>)
    requires 0 < r < n
  {
    && path != [] && path[0] == c && (forall k :: 0 <= k < |path| ==> path[k] < n)
    && (forall k :: 0 < k < |path| ==> path[k] == Step(n, r, path[k - 1]))
    && (forall j, k :: 0 <= j < k < |path| ==> path[j] != path[k])
  }

  /** A step that does not close the path leads somewhere new. */
  lemma PathGrows(n: nat, r: nat, c: nat, path: seq<nat>)
    requires 0 < r < n && Path(n, r, c, path) && Step(n, r, path[|path| - 1]) != c
    ensures Path(n, r, c, path + [Step(n, r, path[|path| - 1])])
  {
    var next := Step(n, r, path[|path| - 1]);
    forall j | 0 <= j < |path| ensures path[j] != next {
      if j > 0 && path[j] == next { StepInjective(n, r, path[j - 1], path[|path| - 1]); }
    }
  }

  /** All places of a path leave the same remainder. */
  lemma {:induction false} PathClass(n: nat, r: nat, g: nat, c: nat, path: seq<nat>, k: nat)
    requires 0 < r < n && g > 0 && Divides(g, n) && Divides(g, r) && Path(n, r, c, path) && k < |path|
    ensures path[k] % g == c % g
  {
    if k > 0 {
      PathClass(n, r, g, c, path, k - 1);
      var a :| DividesBy(g, a, n);
      var b :| DividesBy(g, b, r);
      var i := path[k - 1];
      if i + r >= n { SameRemainder(g, i, b - a); assert path[k] == i + g * (b - a) by { assert g * (b - a) == g * b - g * a; } }
      else { SameRemainder(g, i, b); }
    }
  }

  lemma SameRemainder(g: int, i: int, m: int)
    requires g > 0
    ensures (i + g * m) % g == i % g
  {
    DivModUnique(g, i / g + m, i % g, i + g * m);
    assert g * (i / g + m) == g * (i / g) + g * m;
  }

  lemma DivModUnique(g: int, q: int, r: int, v: int)
    requires g > 0 && 0 <= r < g && (v == g * q + r || g * q + r == v)
    ensures v / g == q && v % g == r
  {
    var q', r' := v / g, v % g;
    assert v == g * q' + r';
    assert g * (q - q') == r' - r by { assert g * (q - q') == g * q - g * q'; }
    assert g * (q - q') == -(g * (q' - q));
    if q > q' { MulAtLeast(g, q - q'); }
    if q < q' { MulAtLeast(g, q' - q); }
  }

  lemma MulAtLeast(g: int, m: int)
    requires g > 0 && m >= 1
    ensures g * m >= g
  {
    assert g * m == g + g * (m - 1);
    assert g * (m - 1) >= 0;
  }

  /** Where `k` steps from `c` lead, counted without going round. */
  lemma {:induction false} PathTotal(n: nat, r: nat, c: nat, path: seq<nat>, k: nat) returns (turns: nat)
    requires 0 < r < n && Path(n, r, c, path) && k < |path|
    ensures c + k * r == path[k] + n * turns
  {
    if k == 0 {
      turns := 0;
    } else {
      var t := PathTotal(n, r, c, path, k - 1);
      assert k * r == (k - 1) * r + r;
      turns := if path[k - 1] + r >= n then t + 1 else t;
      assert n * (t + 1) == n * t + n;
    }
  }

  /** A closed path is at least as long as the ring divided by the common factor. */
  lemma LongPath(n: nat, r: nat, g: nat, x: int, y: int, c: nat, path: seq<nat>, l: nat)
    requires 0 < r < n && g > 0 && g == x * n + y * r && n == g * l
    requires Path(n, r, c, path) && Step(n, r, path[|path| - 1]) == c
    ensures |path| >= l
  {
    var s := |path|;
    var t := PathTotal(n, r, c, path, s - 1);
    assert s * r == (s - 1) * r + r;
    var q := if path[s - 1] + r >= n then t + 1 else t;
    assert n * (t + 1) == n * t + n;
    assert s * r == n * q;
    Combined(n, r, g, x, y, s, q);
    AtLeast(s, g, n, l, s * x + y * q);
  }

  lemma AtLeast(s: int, g: int, n: int, l: int, m: int)
    requires s >= 1 && g > 0 && n > 0 && n == g * l && s * g == n * m
    ensures s >= l
  {
    assert s * g == g * s;
    MulAtLeast(g, s);
    if m <= 0 { MulMonotone(n, m, 0); }
    MulAtLeast(n, m);
    assert g * (s + 1) == g * s + g;
    if s < l { MulMonotone(g, s + 1, l); }
  }

  lemma Combined(n: int, r: int, g: int, x: int, y: int, s: int, q: int)
    requires g == x * n + y * r && s * r == n * q
    ensures s * g == n * (s * x + y * q)
  {
    calc {
      s * g;
      s * (x * n + y * r);
      s * (x * n) + s * (y * r);
      { assert s * (x * n) == n * (s * x); assert s * (y * r) == y * (s * r); }
      n * (s * x) + y * (n * q);
      { assert y * (n * q) == n * (y * q); }
      n * (s * x) + n * (y * q);
      n * (s * x + y * q);
    }
  }

  ghost function Below(l: nat): (s: set<nat>)
    ensures |s| == l && forall k: nat :: k in s <==> k < l
  {
    if l == 0 then {} else Below(l - 1) + {l - 1}
  }

  function Quotient(g: nat, p: nat): nat
    requires g > 0
  {
    p / g
  }

  ghost function Quotients(g: nat, path: seq<nat>): set<nat>
    requires g > 0
  {
    if path == [] then {} else Quotients(g, path[..|path| - 1]) + {Quotient(g, path[|path| - 1])}
  }

  /** Places below `g * l` that leave the remainder `c`. */
  ghost predicate Classed(g: nat, c: nat, l: nat, path: seq<nat>)
    requires g > 0
  {
    forall k :: 0 <= k < |path| ==> path[k] % g == c && path[k] < g * l
  }

  lemma QuotientOf(g: nat, c: nat, l: nat, p: nat)
    requires g > 0 && p % g == c && p < g * l
    ensures Place(g, Quotient(g, p), c) == p && Quotient(g, p) < l
  {
    if p / g >= l { MulMonotone(g, l, p / g); }
  }

  lemma ClassedBefore(g: nat, c: nat, l: nat, path: seq<nat>)
    requires g > 0 && path != [] && Classed(g, c, l, path)
    ensures Classed(g, c, l, path[..|path| - 1]) && path[|path| - 1] % g == c && path[|path| - 1] < g * l
  {
  }

  lemma {:induction false} QuotientsSize(g: nat, c: nat, l: nat, path: seq<nat>)
    requires g > 0 && Classed(g, c, l, path)
    requires forall j, k :: 0 <= j < k < |path| ==> path[j] != path[k]
    ensures |Quotients(g, path)| == |path| && Quotients(g, path) <= Below(l)
    ensures forall q :: q in Quotients(g, path) ==> Place(g, q, c) in path
  {
    hide Place, Quotient, Classed;
    if path != [] {
      var p, before := path[|path| - 1], path[..|path| - 1];
      ClassedBefore(g, c, l, path);
      QuotientsSize(g, c, l, before);
      QuotientOf(g, c, l, p);
      assert p !in before;
    }
  }

  function Place(g: nat, q: nat, c: nat): nat {
    g * q + c
  }

  lemma MulMonotone(g: int, a: int, b: int)
    requires g > 0 && a <= b
    ensures g * a <= g * b
  {
    assert g * b == g * a + g * (b - a);
    assert g * (b - a) >= 0;
  }

  lemma FullSet(s: set<nat>, t: set<nat>)
    requires s <= t && |s| >= |t|
    ensures s == t
  {
    forall x | x in t ensures x in s {
      if x !in s { SubsetSmaller(s, t - {x}); }
    }
  }

  lemma {:induction false} SubsetSmaller(s: set<nat>, t: set<nat>)
    requires s <= t
    ensures |s| <= |t|
  {
    if s != {} {
      assert (forall x :: x !in s) ==> s == {};
      var x :| x in s;
      SubsetSmaller(s - {x}, t - {x});
    }
  }

  /** A closed path takes in every place with its remainder. */
  lemma FullCycle(n: nat, r: nat, g: nat, x: int, y: int, c: nat, path: seq<nat>, i: nat)
    requires 0 < r < n && g > 0 && Divides(g, n) && Divides(g, r) && g == x * n + y * r && c < g
    requires Path(n, r, c, path) && Step(n, r, path[|path| - 1]) == c && i < n && i % g == c
    ensures i in path
  {
    var l := Times(g, n);
    hide Place, Quotient, Classed, Path, Step;
    CycleCovers(n, r, g, x, y, c, path, i, l);
  }

  lemma Times(g: nat, n: nat) returns (l: nat)
    requires g > 0 && Divides(g, n)
    ensures n == g * l
  {
    var k :| DividesBy(g, k, n);
    if k < 0 { MulMonotone(g, k, -1); }
    l := k;
  }

  lemma CycleCovers(n: nat, r: nat, g: nat, x: int, y: int, c: nat, path: seq<nat>, i: nat, l: nat)
    requires 0 < r < n && g > 0 && Divides(g, n) && Divides(g, r) && g == x * n + y * r && c < g && n == g * l
    requires Path(n, r, c, path) && Step(n, r, path[|path| - 1]) == c && i < n && i % g == c
    ensures i in path
  {
    hide Place, Quotient, Classed, Step, Divides, Quotients, Below;
    LongPath(n, r, g, x, y, c, path, l);
    PathClassed(n, r, g, c, path, l);
    QuotientsSize(g, c, l, path);
    FullSet(Quotients(g, path), Below(l));
    QuotientOf(g, c, l, i);
  }

  lemma PathClassed(n: nat, r: nat, g: nat, c: nat, path: seq<nat>, l: nat)
    requires 0 < r < n && g > 0 && Divides(g, n) && Divides(g, r) && c < g && Path(n, r, c, path) && n == g * l
    ensures Classed(g, c, l, path)
  {
    forall k | 0 <= k < |path| ensures path[k] % g == c && path[k] < g * l {
      PathClass(n, r, g, c, path, k);
      SmallRemainder(g, c);
    }
  }

  lemma SmallRemainder(g: int, c: int)
    requires 0 <= c < g
    ensures c % g == c
  {
  }
}
