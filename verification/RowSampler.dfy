/** The deterministic row sampler of scripts/benchmark-matrix/raw-db-ceiling.ts: a linear
    congruential generator per worker, and the counters that make inserted ids unique. */
module RowSampler {

  const MODULUS: nat := 0x1_0000_0000
  const MULTIPLIER: nat := 1664525
  const INCREMENT: nat := 1013904223
  const SEED: nat := 42
  const WORKERS: nat := 64
  const BATCH_SIZE: nat := 100

  /** Integers up to this bound are exact in a double. */
  const EXACT_BOUND: nat := 0x20_0000_0000_0000

  /** `(x * 1664525 + 1013904223) >>> 0`. */
  function Step(x: nat): (y: nat)
    requires x < MODULUS
    ensures y < MODULUS
  {
    (MULTIPLIER * x + INCREMENT) % MODULUS
  }

  function Iterate(x: nat, n: nat): (y: nat)
    requires x < MODULUS
    ensures y < MODULUS
  {
    if n == 0 then x else Step(Iterate(x, n - 1))
  }

  /** `Math.floor(state / 2 ** 32 * rows)`. */
  function Row(state: nat, rows: nat): int {
    (state as real / MODULUS as real * rows as real).Floor
  }

  // ------------------------------------------------------------------
  // Powers of two
  // ------------------------------------------------------------------

  function Pow2(m: nat): (p: nat)
    ensures p > 0
  {
    if m == 0 then 1 else 2 * Pow2(m - 1)
  }

  ghost predicate Times(d: nat, q: int, a: int) { a == d * q }

  ghost predicate Divides(d: nat, a: int) {
    exists q :: Times(d, q, a)
  }

  lemma DividesMod(d: nat, a: int)
    requires d > 0
    ensures Divides(d, a) <==> a % d == 0
  {
    if a % d == 0 { assert Times(d, a / d, a); }
    if q :| Times(d, q, a) { ModOfMultiple(d, q); }
  }

  lemma MulGrows(d: nat, t: int)
    ensures t >= 1 ==> d * t >= d
    ensures t <= -1 ==> d * t <= 0 - d
  {
  }

  lemma MulMono(a: nat, b: nat, c: nat)
    ensures a <= b ==> a * c <= b * c
  {
    if a <= b { assert b * c == a * c + (b - a) * c; }
  }

  lemma ModOfMultiple(d: nat, q: int)
    requires d > 0
    ensures (d * q) % d == 0
  {
    var r := (d * q) % d;
    var k := (d * q) / d;
    assert d * q == d * k + r;
    assert r == d * (q - k);
    MulGrows(d, q - k);
  }

  lemma ModShift(d: nat, a: int, q: int)
    requires d > 0
    ensures (a + d * q) % d == a % d
  {
    var r1, k1 := (a + d * q) % d, (a + d * q) / d;
    var r2, k2 := a % d, a / d;
    assert a + d * q == d * k1 + r1 && a == d * k2 + r2;
    var t := k2 + q - k1;
    assert r1 - r2 == d * t by { assert d * k2 + d * q - d * k1 == d * t; }
    MulGrows(d, t);
  }

  /** Halving: an even number is divisible by 2^m when its half is divisible by 2^(m-1). */
  lemma DividesHalf(m: nat, h: int)
    requires m > 0
    ensures Divides(Pow2(m), 2 * h) <==> Divides(Pow2(m - 1), h)
  {
    var p := Pow2(m - 1);
    assert Pow2(m) == 2 * p;
    if Divides(2 * p, 2 * h) {
      var q :| Times(2 * p, q, 2 * h);
      assert Times(p, q, h);
    }
    if Divides(p, h) {
      var q :| Times(p, q, h);
      assert Times(2 * p, q, 2 * h);
    }
  }

  lemma DividesEven(m: nat, a: int)
    requires m > 0 && Divides(Pow2(m), a)
    ensures a % 2 == 0
  {
    var q :| Times(Pow2(m), q, a);
    assert a == 2 * (Pow2(m - 1) * q);
  }

  lemma OddTimesOdd(a: int, b: int)
    requires b % 2 == 1
    ensures (a * b) % 2 == (b * a) % 2 == a % 2
  {
    var k := b / 2;
    assert a * b == a + 2 * (a * k) by { assert b == 2 * k + 1; }
  }

  /** An odd factor changes no divisibility by a power of two. */
  lemma {:induction false} OddFactor(m: nat, a: int, o: int)
    requires o % 2 == 1
    ensures Divides(Pow2(m), a * o) <==> Divides(Pow2(m), a)
  {
    if m == 0 {
      assert Times(1, a, a) && Times(1, a * o, a * o);
    } else {
      OddTimesOdd(a, o);
      if a % 2 == 0 {
        var h := a / 2;
        assert a * o == 2 * (h * o);
        DividesHalf(m, h);
        DividesHalf(m, h * o);
        OddFactor(m - 1, h, o);
      } else {
        if Divides(Pow2(m), a * o) { DividesEven(m, a * o); }
        if Divides(Pow2(m), a) { DividesEven(m, a); }
      }
    }
  }

  // ------------------------------------------------------------------
  // Closed form of the orbit
  // ------------------------------------------------------------------

  function Pow(a: nat, n: nat): nat {
    if n == 0 then 1 else a * Pow(a, n - 1)
  }

  /** 1 + a + ... + a^(n-1). */
  function Geometric(a: nat, n: nat): nat {
    if n == 0 then 0 else 1 + a * Geometric(a, n - 1)
  }

  /** How far one step moves `x`, before reduction. */
  function Drift(x: nat): nat {
    (MULTIPLIER - 1) * x + INCREMENT
  }

  lemma Advance(x: nat, g: nat, r: nat)
    requires r == (x + g * Drift(x)) % MODULUS
    ensures (MULTIPLIER * r + INCREMENT) % MODULUS == (x + (1 + MULTIPLIER * g) * Drift(x)) % MODULUS
  {
    var d := Drift(x);
    var e := g * d;
    var q := (x + e) / MODULUS;
    assert r == x + e - MODULUS * q;
    ModShift(MODULUS, MULTIPLIER * r + INCREMENT, MULTIPLIER * q);
    assert (1 + MULTIPLIER * g) * d == d + MULTIPLIER * e;
  }

  lemma {:induction false} ClosedForm(x: nat, n: nat)
    requires x < MODULUS
    ensures Iterate(x, n) == (x + Geometric(MULTIPLIER, n) * Drift(x)) % MODULUS
  {
    if n > 0 {
      ClosedForm(x, n - 1);
      Advance(x, Geometric(MULTIPLIER, n - 1), Iterate(x, n - 1));
    }
  }

  lemma OneModFour(a: nat, p: nat)
    requires a % 4 == 1 && p % 4 == 1
    ensures (a * p) % 4 == 1
  {
    var i, j := a / 4, p / 4;
    assert a == 4 * i + 1 && p == 4 * j + 1;
    assert a * p == 4 * (4 * (i * j) + i + j) + 1;
  }

  lemma {:induction false} PowModFour(a: nat, n: nat)
    requires a % 4 == 1
    ensures Pow(a, n) % 4 == 1
  {
    if n > 0 {
      PowModFour(a, n - 1);
      OneModFour(a, Pow(a, n - 1));
    }
  }

  lemma GeometricNext(a: nat, n: nat)
    ensures Geometric(a, 0) == 0 && Geometric(a, n + 1) == 1 + a * Geometric(a, n)
  {
  }

  lemma ParityStep(a: nat, g: nat, n: nat)
    requires a % 2 == 1 && g % 2 == n % 2
    ensures (1 + a * g) % 2 == (n + 1) % 2
  {
    OddTimesOdd(g, a);
  }

  lemma {:induction false} GeometricParity(a: nat, n: nat)
    requires a % 2 == 1
    ensures Geometric(a, n) % 2 == n % 2
  {
    hide Geometric;
    if n == 0 {
      GeometricNext(a, 0);
    } else {
      GeometricParity(a, n - 1);
      GeometricNext(a, n - 1);
      ParityStep(a, Geometric(a, n - 1), n - 1);
    }
  }

  lemma Distribute(a: nat, g: nat, p: nat, h: nat)
    ensures a * (g + p * h) == a * g + (a * p) * h
  {
  }

  lemma {:induction false} GeometricSum(a: nat, m: nat, n: nat)
    ensures Geometric(a, m + n) == Geometric(a, m) + Pow(a, m) * Geometric(a, n)
  {
    if m > 0 {
      GeometricSum(a, m - 1, n);
      Distribute(a, Geometric(a, m - 1), Pow(a, m - 1), Geometric(a, n));
      assert m + n - 1 == m - 1 + n;
    }
  }

  lemma OddHalf(h: nat, p: nat) returns (o: nat)
    requires p % 4 == 1
    ensures o % 2 == 1 && h + p * h == 2 * (h * o)
  {
    o := (1 + p) / 2;
    assert h + p * h == h * (1 + p) == h * (2 * o);
  }

  /** Over an even number of terms the sum is twice an odd multiple of half of it. */
  lemma GeometricDouble(a: nat, k: nat) returns (o: nat)
    requires a % 4 == 1
    ensures o % 2 == 1 && Geometric(a, k + k) == 2 * (Geometric(a, k) * o)
  {
    GeometricSum(a, k, k);
    PowModFour(a, k);
    o := OddHalf(Geometric(a, k), Pow(a, k));
  }

  /** The heart of the matter: the partial sums are divisible by exactly the powers of two `n` is. */
  lemma {:induction false} GeometricDivides(a: nat, m: nat, n: nat)
    requires a % 4 == 1
    ensures Divides(Pow2(m), Geometric(a, n)) <==> Divides(Pow2(m), n)
  {
    var g := Geometric(a, n);
    if m == 0 {
      assert Times(1, g, g) && Times(1, n, n);
    } else {
      GeometricParity(a, n);
      if n % 2 == 1 {
        if Divides(Pow2(m), g) { DividesEven(m, g); }
        if Divides(Pow2(m), n) { DividesEven(m, n); }
      } else {
        var k := n / 2;
        var o := GeometricDouble(a, k);
        assert n == k + k;
        DividesHalf(m, Geometric(a, k) * o);
        OddFactor(m - 1, Geometric(a, k), o);
        GeometricDivides(a, m - 1, k);
        DividesHalf(m, k);
      }
    }
  }

  lemma ModulusIsPow2()
    ensures Pow2(32) == MODULUS
  {
    assert Pow2(8) == 256;
    assert Pow2(16) == 65536;
    assert Pow2(24) == 0x100_0000;
  }

  lemma DriftIsOdd(x: nat)
    ensures Drift(x) % 2 == 1
  {
    assert Drift(x) == 2 * (832262 * x + 506952111) + 1;
  }

  /** Moving by `e` and reducing returns to `x` exactly when the modulus divides `e`. */
  lemma BackToStart(x: nat, e: nat)
    requires x < MODULUS
    ensures (x + e) % MODULUS == x <==> Divides(MODULUS, e)
  {
    if q :| Times(MODULUS, q, e) {
      ModShift(MODULUS, x, q);
    }
    if (x + e) % MODULUS == x {
      assert Times(MODULUS, (x + e) / MODULUS, e);
    }
  }

  // ------------------------------------------------------------------
  // Main results
  // ------------------------------------------------------------------

  /** The product and sum are exact in doubles before `>>> 0` reduces them. */
  lemma StepIsExact(x: nat)
    requires x < MODULUS
    ensures MULTIPLIER * x + INCREMENT < EXACT_BOUND
  {
  }

  /** One step and one draw, in numbers. */
  lemma StepInNumbers(x: nat)
    requires x < MODULUS
    ensures Step(x) == (1664525 * x + 1013904223) % 4294967296 && MODULUS == 4294967296
  {
  }

  /** Full period: the generator is back at a state exactly after multiples of 2^32 steps. */
  lemma FullPeriod(x: nat, n: nat)
    requires x < MODULUS
    ensures Iterate(x, n) == x <==> n % MODULUS == 0
  {
    hide Iterate, Geometric, Drift, Pow2, Divides;
    ClosedForm(x, n);
    BackToStart(x, Geometric(MULTIPLIER, n) * Drift(x));
    ModulusIsPow2();
    DriftIsOdd(x);
    OddFactor(32, Geometric(MULTIPLIER, n), Drift(x));
    GeometricDivides(MULTIPLIER, 32, n);
    DividesMod(MODULUS, n);
  }

  lemma {:induction false} IterateAdds(x: nat, m: nat, n: nat)
    requires x < MODULUS
    ensures Iterate(x, m + n) == Iterate(Iterate(x, m), n)
  {
    if n > 0 { IterateAdds(x, m, n - 1); }
  }

  /** Two draws of one period never give the same state. */
  lemma NoRepeatWithinPeriod(x: nat, m: nat, n: nat)
    requires x < MODULUS && m < n < m + MODULUS
    ensures Iterate(x, m) != Iterate(x, n)
  {
    var d := n - m;
    assert d % MODULUS == d;
    IterateAdds(x, m, d);
    FullPeriod(Iterate(x, m), d);
  }

  /** The step is a permutation of the states: `MODULUS - 1` further steps undo it, on either side. */
  lemma StepIsPermutation(x: nat)
    requires x < MODULUS
    ensures Iterate(Step(x), MODULUS - 1) == x
    ensures Step(Iterate(x, MODULUS - 1)) == x
  {
    FullPeriod(x, MODULUS);
    IterateAdds(x, 1, MODULUS - 1);
    assert Iterate(x, 1) == Step(Iterate(x, 0));
  }

  // ------------------------------------------------------------------
  // Rows
  // ------------------------------------------------------------------

  /** The row named by a state is the exact quotient, so it is one of the seeded rows. */
  lemma RowIsQuotient(x: nat, rows: nat, r: int)
    requires x < MODULUS && rows > 0
    ensures Row(x, rows) == r <==> r * MODULUS <= x * rows < (r + 1) * MODULUS
  {
  }

  /** The product the program floors is below the bound of exact doubles for every state exactly up to 2^21 rows. */
  lemma RowIsExactIff(rows: nat)
    ensures (forall x: nat :: x < MODULUS ==> x * rows < EXACT_BOUND) <==> rows <= 0x20_0000
  {
    forall x: nat | x < MODULUS && rows <= 0x20_0000 ensures x * rows < EXACT_BOUND {
      MulMono(x, MODULUS - 1, rows);
    }
    if rows > 0x20_0000 { assert (MODULUS - 1) * rows >= EXACT_BOUND; }
  }

  lemma MulLess(a: nat, b: nat, c: nat)
    requires a < b && c > 0
    ensures a * c < b * c
  {
    assert b * c == a * c + (b - a) * c;
  }

  lemma RowInRange(x: nat, rows: nat)
    requires x < MODULUS && rows > 0
    ensures 0 <= Row(x, rows) < rows
  {
    RowIsQuotient(x, rows, Row(x, rows));
    MulLess(x, MODULUS, rows);
  }

  /** `x`, the smallest state that names row `r`. */
  lemma RowHasState(rows: nat, r: nat) returns (x: nat)
    requires r < rows <= MODULUS
    ensures x < MODULUS && Row(x, rows) == r
  {
    var n := r * MODULUS + rows - 1;
    x := n / rows;
    assert x * rows + n % rows == n;
    assert n < rows * MODULUS;
    MulMono(MODULUS, x, rows);
    RowIsQuotient(x, rows, r);
  }

  // ------------------------------------------------------------------
  // One period visits every state, hence every row
  // ------------------------------------------------------------------

  /** States of draws `0..n`. */
  ghost function Visited(x: nat, n: nat): set<nat>
    requires x < MODULUS
  {
    if n == 0 then {} else Visited(x, n - 1) + {Iterate(x, n - 1)}
  }

  lemma {:induction false} VisitedEarlier(x: nat, n: nat, y: nat) returns (k: nat)
    requires x < MODULUS && y in Visited(x, n)
    ensures k < n && Iterate(x, k) == y
  {
    if y in Visited(x, n - 1) { k := VisitedEarlier(x, n - 1, y); } else { k := n - 1; }
  }

  lemma {:induction false} VisitedSize(x: nat, n: nat)
    requires x < MODULUS && n <= MODULUS
    ensures |Visited(x, n)| == n
  {
    if n > 0 {
      VisitedSize(x, n - 1);
      var y := Iterate(x, n - 1);
      if y in Visited(x, n - 1) {
        var k := VisitedEarlier(x, n - 1, y);
        NoRepeatWithinPeriod(x, k, n - 1);
      }
    }
  }

  ghost function Below(n: nat): (r: set<nat>)
    ensures forall i: nat :: i in r <==> i < n
    ensures |r| == n
  {
    if n == 0 then {} else Below(n - 1) + {n - 1}
  }

  lemma FullSubset(a: set<nat>, b: set<nat>)
    requires a <= b && |a| == |b|
    ensures a == b
  {
    assert b == a + (b - a);
    assert |b| == |a| + |b - a|;
    assert b - a == {};
  }

  /** Every state occurs in every period, wherever it starts. */
  lemma EveryStateVisited(x: nat, y: nat) returns (k: nat)
    requires x < MODULUS && y < MODULUS
    ensures k < MODULUS && Iterate(x, k) == y
  {
    var seen := Visited(x, MODULUS);
    VisitedSize(x, MODULUS);
    forall z | z in seen ensures z in Below(MODULUS) {
      var k := VisitedEarlier(x, MODULUS, z);
    }
    FullSubset(seen, Below(MODULUS));
    k := VisitedEarlier(x, MODULUS, y);
  }

  /** In any 2^32 consecutive draws every one of the seeded rows is named. */
  lemma EveryRowNamed(x: nat, rows: nat, r: nat) returns (k: nat)
    requires x < MODULUS && r < rows <= MODULUS
    ensures k < MODULUS && Row(Iterate(x, k), rows) == r
  {
    var y := RowHasState(rows, r);
    k := EveryStateVisited(x, y);
  }

  // ------------------------------------------------------------------
  // The worker tables
  // ------------------------------------------------------------------

  /** Ids a counter value stands for: one batch of `BATCH_SIZE` consecutive numbers. */
  predicate InBatch(c: nat, id: nat) {
    c * BATCH_SIZE <= id < c * BATCH_SIZE + BATCH_SIZE
  }

  class Workers {
    const rngState: array<nat>
    const wCounters: array<nat>
    ghost var draws: seq<nat>

    ghost predicate Valid()
      reads this, rngState, wCounters
    {
      && rngState != wCounters
      && rngState.Length == wCounters.Length == |draws| == WORKERS
      && forall w :: 0 <= w < WORKERS ==> rngState[w] == Iterate(SEED, draws[w])
    }

    constructor ()
      ensures Valid() && fresh(rngState) && fresh(wCounters)
      ensures forall w :: 0 <= w < WORKERS ==> draws[w] == 0 && wCounters[w] == 0
      ensures rngState.Length == wCounters.Length == 64 && forall w :: 0 <= w < 64 ==> rngState[w] == 42
    {
      rngState := new nat[WORKERS](w => SEED);
      wCounters := new nat[WORKERS](w => 0);
      draws := seq(WORKERS, w => 0);
    }

    /** Draw `n` of worker `w` is the `n`-th iterate of the seed; other workers are untouched. */
    method NextRand(w: nat) returns (u: real)
      requires Valid() && w < WORKERS
      modifies this, rngState
      ensures Valid()
      ensures draws == old(draws)[w := old(draws[w]) + 1]
      ensures u == Iterate(SEED, draws[w]) as real / MODULUS as real
      ensures rngState[..] == old(rngState[..])[w := Iterate(SEED, draws[w])]
    {
      rngState[w] := (rngState[w] * MULTIPLIER + INCREMENT) % MODULUS;
      draws := draws[w := draws[w] + 1];
      u := rngState[w] as real / MODULUS as real;
    }

    /** `Math.floor(nextRand(w) * rows)` names a seeded row. */
    method NextRow(w: nat, rows: nat) returns (r: int)
      requires Valid() && w < WORKERS && rows > 0
      modifies this, rngState
      ensures Valid() && draws == old(draws)[w := old(draws[w]) + 1]
      ensures r == Row(Iterate(SEED, draws[w]), rows) && 0 <= r < rows
    {
      var u := NextRand(w);
      r := (u * rows as real).Floor;
      RowInRange(Iterate(SEED, draws[w]), rows);
    }

    /** Batch ids of a worker: never one of an earlier batch of the same worker. */
    method NextBatch(w: nat) returns (base: nat)
      requires Valid() && w < WORKERS
      modifies wCounters
      ensures Valid()
      ensures wCounters[..] == old(wCounters[..])[w := old(wCounters[w]) + 1]
      ensures base == wCounters[w] * BATCH_SIZE
      ensures base == 100 * wCounters[w]
      ensures forall c: nat, id: nat :: c <= old(wCounters[w]) && InBatch(c, id) ==> !InBatch(wCounters[w], id)
    {
      wCounters[w] := wCounters[w] + 1;
      base := wCounters[w] * BATCH_SIZE;
    }
  }
}
