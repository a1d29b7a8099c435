/**
 random_icg's modular inversion by the extended Euclidean algorithm and its generator step, in the mixture of signed
 and unsigned 32-bit arithmetic that the code uses.
 */
module InversiveGenerator {
  import opened Words
  import opened Division

  // ---- Greatest common divisors ----

  function Gcd(a: nat, b: nat): nat
    decreases b
  {
    if b == 0 then a else Gcd(b, a % b)
  }

  lemma GcdNext(a: nat, b: nat)
    requires b > 0
    ensures Gcd(b, a % b) == Gcd(a, b)
  {
  }

  ghost predicate Divides(d: nat, n: int) { exists k: int :: n == d * k }

  lemma DividesSum(d: nat, m: int, n: int, q: int)
    requires Divides(d, m) && Divides(d, n)
    ensures Divides(d, m + q * n)
  {
    var k :| m == d * k;
    var l :| n == d * l;
    assert m + q * n == d * (k + q * l);
  }

  /** Gcd divides both numbers, and every common divisor divides it. */
  lemma {:induction false} GcdIsGreatest(a: nat, b: nat, d: nat)
    ensures Divides(Gcd(a, b), a) && Divides(Gcd(a, b), b)
    ensures Divides(d, a) && Divides(d, b) ==> Divides(d, Gcd(a, b))
    decreases b
  {
    if b == 0 {
      assert a == a * 1;
      assert b == a * 0;
    } else {
      Parts(a, b);
      GcdIsGreatest(b, a % b, d);
      GcdStep(Gcd(a, b), a, b, a / b, a % b);
      GcdStep(d, a, b, a / b, a % b);
    }
  }

  /** Dividing a and b is the same as dividing b and the remainder. */
  lemma GcdStep(d: nat, a: int, b: int, q: int, r: int)
    requires a == b * q + r
    ensures Divides(d, b) ==> (Divides(d, a) <==> Divides(d, r))
  {
    if Divides(d, b) {
      if Divides(d, r) {
        DividesSum(d, r, b, q);
      }
      if Divides(d, a) {
        DividesSum(d, a, b, -q);
        assert a + -q * b == r;
      }
    }
  }

  // ---- The inversion ----

  /** inv - q*v as the code computes it: the unsigned q makes the whole expression unsigned, and t is signed again. */
  function Next(inv: int, q: int, v: int): int {
    Signed(Unsigned(Unsigned(inv) - Unsigned(q * Unsigned(v))))
  }

  lemma NextExact(inv: int, q: int, v: int)
    requires IsInt(inv - q * v)
    ensures Next(inv, q, v) == inv - q * v
  {
    var i := UnsignedTurns(inv);
    var j := UnsignedTurns(v);
    var k := UnsignedTurns(q * Unsigned(v));
    var l := UnsignedTurns(Unsigned(inv) - Unsigned(q * Unsigned(v)));
    Collected(inv, q, v, i, j, k, l);
    SignedExact(inv - q * v, i - q * j - k + l);
  }

  lemma Collected(inv: int, q: int, v: int, i: int, j: int, k: int, l: int)
    ensures (inv + MODULUS * i) - (q * (v + MODULUS * j) + MODULUS * k) + MODULUS * l
         == inv - q * v + MODULUS * (i - q * j - k + l)
  {
    assert q * (v + MODULUS * j) == q * v + MODULUS * (q * j);
  }

  function Abs(x: int): nat { if x < 0 then -x else x }

  /** One round of the loop: remainders and coefficients move on together. */
  datatype Round = Round(d: nat, u: nat, inv: int, v: int)

  /** The coefficients stay small: together, scaled by the remainders, they make up p. */
  ghost predicate Balanced(r: Round, p: nat) {
    && Abs(r.v) * r.d + Abs(r.inv) * r.u == p
    && (r.inv <= 0 <= r.v || r.v <= 0 <= r.inv)
  }

  lemma BalancedNext(r: Round, q: nat, p: nat)
    requires Balanced(r, p) && r.u > 0 && r.d == q * r.u + r.d % r.u
    ensures Balanced(Round(r.u, r.d % r.u, r.v, r.inv - q * r.v), p)
  {
    var t := r.d % r.u;
    var w := r.inv - q * r.v;
    SignsApart(r.inv, r.v, q);
    var a, b := Abs(r.v), Abs(r.inv);
    assert a * (q * r.u + t) == (q * a) * r.u + a * t;
    assert (b + q * a) * r.u == b * r.u + (q * a) * r.u;
    assert Abs(w) == b + q * a;
  }

  lemma SignsApart(inv: int, v: int, q: nat)
    requires inv <= 0 <= v || v <= 0 <= inv
    ensures Abs(inv - q * v) == Abs(inv) + q * Abs(v)
    ensures v <= 0 <= inv - q * v || inv - q * v <= 0 <= v
  {
    var x := q * v;
    if v >= 0 {
      assert x >= 0;
    } else {
      assert x <= 0 && q * -v == -x;
    }
  }

  /** Both remainders are multiples of the number to invert, modulo p. */
  ghost predicate Related(r: Round, state: int, p: nat, kd: int, ku: int) {
    r.d == r.inv * state + kd * p && r.u == r.v * state + ku * p
  }

  lemma RelatedNext(r: Round, q: nat, state: int, p: nat, kd: int, ku: int)
    requires Related(r, state, p, kd, ku) && r.u > 0 && r.d == q * r.u + r.d % r.u
    ensures Related(Round(r.u, r.d % r.u, r.v, r.inv - q * r.v), state, p, ku, kd - q * ku)
  {
    assert q * (r.v * state + ku * p) == (q * r.v) * state + (q * ku) * p;
    assert (r.inv - q * r.v) * state == r.inv * state - (q * r.v) * state;
    assert (kd - q * ku) * p == kd * p - (q * ku) * p;
  }

  lemma CoefficientBound(a: nat, d: nat, p: nat, rest: nat)
    requires a * d + rest == p
    ensures d >= 1 ==> a <= p
    ensures d >= 2 ==> 2 * a <= p
  {
    if d >= 1 {
      assert a * d >= a;
    }
    if d >= 2 {
      assert a * d >= 2 * a;
    }
  }

  /**
   The inversion as the code runs it; the test at the end of its loop holds before the first round as well. What comes
   back, times the number, is their greatest common divisor modulo p, and no step leaves the range of an int.
   */
  method Inverse(state: int, p: int) returns (result: int)
    requires IsInt(state) && 1 <= p < HALF
    ensures IsWord(result)
    ensures state <= 1 ==> result == Unsigned(state)
    ensures 1 < state ==> 0 <= result <= p && (result * state) % p == Gcd(p, state) % p
    ensures 1 < state < p ==> result < p
  {
    if state <= 1 {
      return Unsigned(state);
    }
    var d, inv;
    ghost var kd;
    d, inv, kd := Bezout(state, p);
    hide *;
    result := Wrapped(d, inv, state, p, kd);
  }

  /** The loop of the inversion, down to the greatest common divisor and its coefficient. */
  method Bezout(state: int, p: int) returns (d: int, inv: int, ghost kd: int)
    requires 1 < state < HALF && 1 <= p < HALF
    ensures Found(d, inv, state, p, kd)
  {
    var u, v := state, 1;
    d, inv := p, 0;
    ghost var ku := 0;
    kd := 1;
    hide *;
    StartsGoing(p, state);
    while u != 0
      invariant 1 <= d && 0 <= u && Going(Round(d, u, inv, v), state, p, kd, ku)
      decreases u
    {
      ghost var r := Round(d, u, inv, v);
      var q := d / u;
      var t := d % u;
      Parts(d, u);
      RoundGoes(r, q, t, state, p, kd, ku);
      d := u;
      u := t;
      t := Next(inv, q, v);
      inv := v;
      v := t;
      kd, ku := ku, Reduce(kd, q, ku);
    }
    Arrived(d, inv, v, state, p, kd, ku);
  }

  /** A negative coefficient is brought up by p. */
  method Wrapped(d: int, inv: int, state: int, p: int, ghost kd: int) returns (result: int)
    requires 1 < state && 1 <= p < HALF && Found(d, inv, state, p, kd)
    ensures IsWord(result) && 0 <= result <= p && (result * state) % p == Gcd(p, state) % p
    ensures state < p ==> result < p
  {
    result := inv;
    if inv < 0 {
      result := Signed(inv + p);
    }
    InverseResult(d, inv, result, state, p, kd);
  }

  /**
   What holds before every round: the numbers are ints, the coefficients small, and the remainders those of Euclid's
   algorithm.
   */
  ghost predicate Going(r: Round, state: int, p: nat, kd: int, ku: int) {
    && 1 <= r.d < HALF && r.u < HALF && 1 <= p < HALF && 1 < state
    && Balanced(r, p) && Related(r, state, p, kd, ku)
    && Gcd(r.d, r.u) == Gcd(p, state)
    && Abs(r.inv) <= p && Abs(r.v) <= p && (state < p ==> r.u < r.d && 2 * Abs(r.inv) <= p)
  }

  /** What the loop ends with. */
  ghost predicate Found(d: int, inv: int, state: int, p: int, kd: int) {
    && 1 < state && 0 < p && d == Gcd(p, state) && Combined(d, inv, state, p, kd)
    && Abs(inv) <= p && (state < p ==> 2 * Abs(inv) <= p)
  }

  function Reduce(a: int, q: int, b: int): int { a - q * b }

  lemma StartsGoing(p: nat, state: int)
    requires 1 <= p < HALF && 1 < state < HALF
    ensures Going(Round(p, state, 0, 1), state, p, 1, 0)
  {
  }

  lemma RoundGoes(r: Round, q: nat, t: nat, state: int, p: nat, kd: int, ku: int)
    requires Going(r, state, p, kd, ku) && r.u > 0 && q == r.d / r.u && t == r.d % r.u && t < r.u
    ensures 0 <= t && IsInt(Next(r.inv, q, r.v))
    ensures Going(Round(r.u, t, r.v, Next(r.inv, q, r.v)), state, p, ku, Reduce(kd, q, ku))
  {
    GcdNext(r.d, r.u);
    hide Related, Gcd, Next;
    RoundExact(r, q, p);
    BalancedNext(r, q, p);
    RelatedNext(r, q, state, p, kd, ku);
    NextExact(r.inv, q, r.v);
    var w := Next(r.inv, q, r.v);
    BalancedBound(r, p);
    BalancedBound(Round(r.u, t, r.v, w), p);
    hide Balanced;
  }

  lemma BalancedBound(r: Round, p: nat)
    requires Balanced(r, p)
    ensures r.d >= 1 ==> Abs(r.v) <= p
    ensures r.d >= 2 ==> 2 * Abs(r.v) <= p
  {
    CoefficientBound(Abs(r.v), r.d, p, Abs(r.inv) * r.u);
  }

  lemma Arrived(d: nat, inv: int, v: int, state: int, p: nat, kd: int, ku: int)
    requires Going(Round(d, 0, inv, v), state, p, kd, ku)
    ensures Found(d, inv, state, p, kd)
  {
  }

  lemma RoundExact(r: Round, q: nat, p: nat)
    requires Balanced(r, p) && r.u > 0 && q == r.d / r.u && p < HALF
    ensures r.d == q * r.u + r.d % r.u && IsInt(r.inv - q * r.v)
  {
    BalancedNext(r, q, p);
    CoefficientBound(Abs(r.inv - q * r.v), r.u, p, Abs(r.v) * (r.d % r.u));
  }

  predicate Combined(d: int, inv: int, state: int, p: int, kd: int) { d == inv * state + kd * p }

  lemma InverseResult(d: nat, inv: int, result: int, state: int, p: nat, kd: int)
    requires p > 0 && Combined(d, inv, state, p, kd)
    requires result == if inv < 0 then inv + p else inv
    ensures p > 0 && (result * state) % p == d % p
  {
    if inv < 0 {
      assert result * state == inv * state + p * state;
      assert result * state == d + p * (state - kd);
      SameRemainder(d, p, state - kd);
    } else {
      assert result * state == d + p * -kd;
      SameRemainder(d, p, -kd);
    }
  }

  // ---- The generator step ----

  const P: int := 2147483053
  const A: int := 22211
  const B: int := 11926380
  const Q: int := 96685
  const R: int := 12518

  /** Schrage's form of A * x, which avoids the large product. */
  function Term(x: nat): int { A * (x % Q) - R * (x / Q) }

  /** P is A * Q + R, so the short form agrees with the product modulo P; below P it stays within -P and P. */
  lemma TermIsProduct(x: nat)
    ensures Term(x) % P == (A * x) % P
    ensures x < MODULUS ==> -HALF < Term(x) < P
    ensures x < P ==> -P < Term(x) < P
  {
    var m, k := x % Q, x / Q;
    assert x == Q * k + m;
    assert A * x == Term(x) + P * k;
    SameRemainder(Term(x), P, k);
  }

  /** One step of the generator as the code runs it; its comparison of the state with itself always holds. */
  method Step(seed: int) returns (state: int)
    requires IsInt(seed)
    ensures IsInt(state)
    ensures exists inv: nat :: IsInverse(inv, seed) && state == Reduced(Term(inv) + B)
  {
    var inv := Inverse(seed, P);
    var low := Unsigned(A * (inv % Q));
    var high := Unsigned(R * (inv / Q));
    state := Signed(Unsigned(Unsigned(low - high) + B));
    WrappedTerm(inv);
    if state < 0 {
      state := Signed(state + P);
    } else if state >= state {
      state := Signed(state - P);
    }
    assert IsInverse(inv, seed);
  }

  /** What the inversion delivers for a seed. */
  predicate IsInverse(inv: nat, seed: int) {
    if seed <= 1 then inv == Unsigned(seed)
    else inv <= P && (inv * seed) % P == Gcd(P, seed) % P && (seed < P ==> inv < P)
  }

  lemma WrappedTerm(inv: nat)
    requires inv < MODULUS
    ensures Signed(Unsigned(Unsigned(Unsigned(A * (inv % Q)) - Unsigned(R * (inv / Q))) + B)) == Signed(Term(inv) + B)
  {
    var x := Term(inv);
    var i := UnsignedTurns(x);
    var j := UnsignedTurns(Unsigned(x) + B);
    SameRemainder(x + B + HALF, MODULUS, i + j);
  }

  /** The end of the step: an int, and then P added or taken away by its sign. */
  function Reduced(s: int): int {
    var state := Signed(s);
    if state < 0 then state + P else state - P
  }

  /**
   The step continues the inversive congruential generator exactly when the sum fits in an int; otherwise the result
   is off by 2^32, which is 1190 modulo P.
   */
  lemma StepIsCongruential(inv: nat)
    requires inv < MODULUS
    ensures Reduced(Term(inv) + B) % P == (A * inv + B) % P <==> Term(inv) + B < HALF
    ensures Term(inv) + B >= HALF ==> (Reduced(Term(inv) + B) + 1190) % P == (A * inv + B) % P
    ensures -P <= Reduced(Term(inv) + B) < P
  {
    TermIsProduct(inv);
    var x := Term(inv);
    var k := Apart(A * inv, x, P);
    SameRemainder(x + B, P, k);
    assert (A * inv + B) % P == (x + B) % P;
    if x + B < HALF {
      if x + B < 0 {
        SameRemainder(x + B, P, 1);
      } else {
        SameRemainder(x + B, P, -1);
      }
    } else {
      assert Signed(x + B) == x + B - MODULUS by {
        SignedExact(x + B - MODULUS, 1);
      }
      var y := x + B - MODULUS + P;
      assert y + 1190 == x + B - P;
      SameRemainder(x + B, P, -1);
      if y % P == (x + B) % P {
        var j := Apart(y + 1190, y, P);
        Multiples(P, j);
      }
    }
  }

  /** From a seed that is coprime to P, the step computes A times the inverse plus B modulo P, when the sum fits. */
  lemma StepFromCoprime(seed: int, inv: nat)
    requires 1 < seed < P && Gcd(P, seed) == 1 && IsInverse(inv, seed)
    ensures 0 < inv < P && (inv * seed) % P == 1
    ensures Term(inv) + B < HALF <==> Reduced(Term(inv) + B) % P == (A * inv + B) % P
  {
    assert inv != 0;
    StepIsCongruential(inv);
  }

  /** There is one inverse below P. */
  lemma InverseUnique(a: nat, b: nat, seed: int)
    requires a < P && b < P && (a * seed) % P == 1 && (b * seed) % P == 1
    ensures a == b
  {
    var k := Apart(a * seed, 1, P);
    var l := Apart(b * seed, 1, P);
    Exchanged(a, b, seed, k, l);
    SameRemainder(a, P, l * a);
    SameRemainder(b, P, k * b);
    SmallRemainder(a, P);
    SmallRemainder(b, P);
  }

  lemma Exchanged(a: int, b: int, seed: int, k: int, l: int)
    requires a * seed == 1 + P * k && b * seed == 1 + P * l
    ensures a + P * (l * a) == b + P * (k * b)
  {
    assert a * (b * seed) == a * (1 + P * l);
    assert b * (a * seed) == b * (1 + P * k);
    assert a * (b * seed) == b * (a * seed);
  }

  /**
   A seed that runs over: 22359 is coprime to P, and whatever the inversion delivers for it, the step is off by 1190.
   */
  lemma StepRunsOver()
    ensures Gcd(P, 22359) == 1 && IsInverse(58107574, 22359)
    ensures forall inv: nat :: IsInverse(inv, 22359) ==> inv == 58107574
    ensures var state, right := Reduced(Term(58107574) + B), A * 58107574 + B;
      state % P != right % P && (state + 1190) % P == right % P
  {
    SeedCoprime();
    SameRemainder(1, P, 605);
    SmallRemainder(1, P);
    forall inv: nat | IsInverse(inv, 22359)
      ensures inv == 58107574
    {
      InverseUnique(inv, 58107574, 22359);
    }
    StepIsCongruential(58107574);
  }

  lemma SeedCoprime()
    ensures Gcd(P, 22359) == 1
  {
    assert Gcd(36, 1) == 1;
    assert Gcd(37, 36) == 1;
    assert Gcd(850, 37) == 1;
    assert Gcd(2587, 850) == 1;
    assert Gcd(3437, 2587) == 1;
    assert Gcd(9461, 3437) == 1;
    assert Gcd(12898, 9461) == 1;
    assert Gcd(22359, 12898) == 1;
    assert Gcd(2147483053, 22359) == 1;
  }
}
