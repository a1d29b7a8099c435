/**
 random_fl's linear congruential generator, which calculates in IEEE doubles: its one inexact operation is a division,
 and truncating the rounded quotient still gives the whole quotient.
 */
module DoubleGenerator {
  import opened Samples
  import opened Words
  import opened Division

  // ---- Doubles ----

  function Power(e: int): real
    decreases if e < 0 then -e else e
  {
    if e == 0 then 1.0 else if e > 0 then 2.0 * Power(e - 1) else Power(e + 1) / 2.0
  }

  const SIGNIFICANDS: int := 0x20_0000_0000_0000

  /** A finite double: 53 bits times a power of two. */
  ghost predicate Double(y: real) {
    exists m: int, e: int :: -SIGNIFICANDS < m < SIGNIFICANDS && -1074 <= e <= 971 && IsScaled(y, m, e)
  }

  predicate IsScaled(y: real, m: int, e: int) { y == m as real * Power(e) }

  function Gap(x: real, y: real): real { if x < y then y - x else x - y }

  /** Rounding to a nearest double, whichever way ties go. */
  ghost predicate Nearest(round: real -> real) {
    forall x :: Double(round(x)) && forall z :: Double(z) ==> Gap(round(x), x) <= Gap(z, x)
  }

  lemma WholeIsDouble(n: int)
    requires -SIGNIFICANDS < n < SIGNIFICANDS
    ensures Double(n as real)
  {
    assert Power(0) == 1.0;
    assert IsScaled(n as real, n, 0);
  }

  lemma RoundsExactly(round: real -> real, x: real)
    requires Nearest(round) && Double(x)
    ensures round(x) == x
  {
    assert Gap(x, x) == 0.0;
  }

  /** Rounding never crosses a double. */
  lemma RoundsWithin(round: real -> real, x: real, lo: real, hi: real)
    requires Nearest(round) && Double(lo) && Double(hi) && lo <= x <= hi
    ensures lo <= round(x) <= hi
  {
    assert Gap(round(x), x) <= Gap(lo, x) && Gap(round(x), x) <= Gap(hi, x);
  }

  // ---- The generator ----

  const M: int := 2147483647
  const A: int := 1389796

  lemma PowerOfStep()
    ensures Power(-31) * 2147483648.0 == 1.0
  {
    assert Power(-8) * 256.0 == 1.0;
    assert Power(-16) * 65536.0 == 1.0;
    assert Power(-24) * 16777216.0 == 1.0;
  }

  /** One step of a double below q + 1, for any q that can occur. */
  lemma StepBelow(q: nat)
    requires q < 0x40_0000
    ensures Double((q + 1) as real - 1.0 / 2147483648.0)
  {
    PowerOfStep();
    var m := (q + 1) * 2147483648 - 1;
    var y := (q + 1) as real - 1.0 / 2147483648.0;
    assert m as real == (q + 1) as real * 2147483648.0 - 1.0;
    assert y * 2147483648.0 == m as real;
    ScaledBy(y, m as real, Power(-31));
    assert IsScaled(y, m, -31);
  }

  lemma ScaledBy(y: real, m: real, p: real)
    requires y * 2147483648.0 == m && p * 2147483648.0 == 1.0
    ensures y == m * p
  {
    assert m * p == y * (2147483648.0 * p);
  }

  /** The rounded quotient lies between the whole quotient and the next whole number. */
  lemma QuotientRounds(round: real -> real, x: nat)
    requires Nearest(round) && x < MODULUS * A
    ensures (x / M) as real <= round(x as real / M as real) < (x / M) as real + 1.0
  {
    var q, r := x / M, x % M;
    assert x == q * M + r;
    var y := x as real / M as real;
    assert y * M as real == x as real;
    QuotientBounds(y, q, r, x);
    WholeIsDouble(q);
    StepBelow(q);
    RoundsWithin(round, y, q as real, (q + 1) as real - 1.0 / 2147483648.0);
  }

  lemma QuotientBounds(y: real, q: nat, r: nat, x: nat)
    requires x == q * M + r && r < M && y * M as real == x as real && x < MODULUS * A
    ensures q < 0x40_0000 && q as real <= y <= (q + 1) as real - 1.0 / 2147483648.0
  {
    assert x as real == q as real * 2147483647.0 + r as real;
    assert (y - q as real) * 2147483647.0 == r as real;
  }

  /** One step of the generator as the code runs it, every operation rounded. The result is exact. */
  method Random(seed: int, round: real -> real) returns (result: int)
    requires IsWord(seed) && Nearest(round)
    ensures result == (A * seed) % M
  {
    hide Nearest, Double;
    var x := A * seed;
    WholeIsDouble(seed);
    WholeIsDouble(A);
    WholeIsDouble(M);
    RoundsExactly(round, seed as real);
    var state := round(seed as real);
    WholeIsDouble(x);
    RoundsExactly(round, x as real);
    assert seed as real * A as real == x as real;
    state := round(state * A as real);
    QuotientRounds(round, x);
    var q := Trunc(round(state / M as real));
    assert q == x / M;
    WholeIsDouble(q * M);
    RoundsExactly(round, (q * M) as real);
    WholeIsDouble(x - q * M);
    RoundsExactly(round, (x - q * M) as real);
    state := round(state - round(q as real * M as real));
    result := Trunc(state);
  }

  // ---- Orbits ----

  function Lcg(seed: nat): (r: nat)
    ensures r < M
  {
    (A * seed) % M
  }

  const INVERSE: int := 483821825

  lemma Undone(seed: nat)
    ensures (INVERSE * Lcg(seed)) % M == seed % M
  {
    var k := (A * seed) / M;
    assert A * seed == M * k + Lcg(seed);
    assert INVERSE * Lcg(seed) == INVERSE * A * seed - M * (INVERSE * k);
    assert INVERSE * A == 1 + M * 313117;
    assert INVERSE * A * seed == seed + M * (313117 * seed);
    SameRemainder(seed, M, 313117 * seed - INVERSE * k);
  }

  /** Different seeds below M go to different states, and only multiples of M go to zero. */
  lemma LcgInjective(s: nat, t: nat)
    ensures Lcg(s) == Lcg(t) <==> s % M == t % M
    ensures Lcg(s) == 0 <==> s % M == 0
  {
    Undone(s);
    Undone(t);
    Undone(0);
    LcgOfRemainder(s);
    LcgOfRemainder(t);
  }

  lemma LcgOfRemainder(s: nat)
    ensures Lcg(s) == Lcg(s % M)
  {
    var k := s / M;
    assert A * s == A * (s % M) + M * (A * k);
    SameRemainder(A * (s % M), M, A * k);
  }

  function Orbit(seed: nat, n: nat): nat {
    if n == 0 then seed else Lcg(Orbit(seed, n - 1))
  }

  /** An orbit meets zero exactly when it starts at a multiple of M; otherwise it stays between 1 and M - 1. */
  lemma {:induction false} OrbitAvoidsZero(seed: nat, n: nat)
    ensures Orbit(seed, n) % M == 0 <==> seed % M == 0
    ensures 0 < seed < M ==> 0 < Orbit(seed, n) < M
  {
    if n > 0 {
      OrbitAvoidsZero(seed, n - 1);
      LcgInjective(Orbit(seed, n - 1), 0);
    }
  }
}
