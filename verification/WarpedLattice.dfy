/**
 The warped lattice of autotune~'s formant corrector. A pre-filter takes the formants out of a sample, with
 coefficients it adapts as it goes; a post-filter with the same stored coefficients has to put them back. The
 post-filter runs the lattice three times: for input 0 and input 1 without touching the delay registers, and
 then for the input that the two responses say will come out as the given sample.
 */
module WarpedLattice {
  import opened Samples
  import Lattice

  /** The delay registers, one pair for each stage. */
  datatype Registers = Registers(b: seq<real>, c: seq<real>) {
    predicate For(order: nat) { |b| == |c| == order }
  }

  /** The two signals between stages. */
  datatype Pair = Pair(a: real, b: real)

  /** The output of a stage's all-pass section for the lower signal b. */
  function AllPass(lam: real, s: Registers, b: real, i: nat): real
    requires i < |s.b| == |s.c|
  {
    (b - s.c[i]) * lam + s.b[i]
  }

  function Joined(p: Pair, k: real, c: real): Pair {
    Pair(p.a - k * c, c - k * p.a)
  }

  /** The signals after i stages, for input x. */
  function Stage(lam: real, s: Registers, ks: seq<real>, x: real, i: nat): Pair
    requires i <= |ks| && s.For(|ks|)
  {
    if i == 0 then Pair(x, x)
    else
      var p := Stage(lam, s, ks, x, i - 1);
      Joined(p, ks[i - 1], AllPass(lam, s, p.b, i - 1))
  }

  /** What the lattice outputs for input x. */
  function Output(lam: real, s: Registers, ks: seq<real>, x: real): real
    requires s.For(|ks|)
  {
    Stage(lam, s, ks, x, |ks|).a
  }

  /** The registers after a sample. */
  function Shifted(lam: real, s: Registers, ks: seq<real>, x: real): (r: Registers)
    requires s.For(|ks|)
    ensures r.For(|ks|)
  {
    Registers(
      seq(|ks|, i requires 0 <= i < |ks| => Stage(lam, s, ks, x, i).b),
      seq(|ks|, i requires 0 <= i < |ks| => AllPass(lam, s, Stage(lam, s, ks, x, i).b, i)))
  }

  /** What the all-pass section leaves of a difference in its input. */
  function Passed(lam: real, b: real): real { b * lam }

  /** How strongly the signals after i stages depend on the input. */
  function Slope(lam: real, ks: seq<real>, i: nat): Pair
    requires i <= |ks|
  {
    if i == 0 then Pair(1.0, 1.0)
    else
      var p := Slope(lam, ks, i - 1);
      Joined(p, ks[i - 1], Passed(lam, p.b))
  }

  function Gain(lam: real, ks: seq<real>): real { Slope(lam, ks, |ks|).a }

  lemma AffineStep(p: Pair, p0: Pair, d: Pair, k: real, c: real, c0: real, e: real, x: real)
    requires p.a == p0.a + x * d.a && c == c0 + x * e
    ensures Joined(p, k, c).a == Joined(p0, k, c0).a + x * Joined(d, k, e).a
    ensures Joined(p, k, c).b == Joined(p0, k, c0).b + x * Joined(d, k, e).b
  {
    assert k * c == k * c0 + x * (k * e);
    assert k * p.a == k * p0.a + x * (k * d.a);
  }

  lemma AllPassAffine(lam: real, s: Registers, b: real, b0: real, d: real, x: real, i: nat)
    requires i < |s.b| == |s.c| && b == b0 + x * d
    ensures AllPass(lam, s, b, i) == AllPass(lam, s, b0, i) + x * Passed(lam, d)
  {
    assert (b - s.c[i]) * lam == (b0 - s.c[i]) * lam + (x * d) * lam;
  }

  /** Two signals pairs whose difference is x times a third. */
  predicate Affine(p: Pair, p0: Pair, d: Pair, x: real) {
    p.a == p0.a + x * d.a && p.b == p0.b + x * d.b
  }

  lemma AffineJoined(lam: real, s: Registers, k: real, p: Pair, p0: Pair, d: Pair, x: real, i: nat)
    requires i < |s.b| == |s.c| && Affine(p, p0, d, x)
    ensures Affine(Joined(p, k, AllPass(lam, s, p.b, i)), Joined(p0, k, AllPass(lam, s, p0.b, i)),
      Joined(d, k, Passed(lam, d.b)), x)
  {
    AllPassAffine(lam, s, p.b, p0.b, d.b, x, i);
    AffineStep(p, p0, d, k, AllPass(lam, s, p.b, i), AllPass(lam, s, p0.b, i), Passed(lam, d.b), x);
  }

  /** The lattice is affine in its input, with a slope that does not depend on the registers. */
  lemma {:induction false} StageAffine(lam: real, s: Registers, ks: seq<real>, x: real, i: nat)
    requires i <= |ks| && s.For(|ks|)
    ensures Affine(Stage(lam, s, ks, x, i), Stage(lam, s, ks, 0.0, i), Slope(lam, ks, i), x)
  {
    if i > 0 {
      StageNext(lam, s, ks, x, i - 1);
      StageNext(lam, s, ks, 0.0, i - 1);
      hide *;
      StageAffine(lam, s, ks, x, i - 1);
      var p, p0, d := Stage(lam, s, ks, x, i - 1), Stage(lam, s, ks, 0.0, i - 1), Slope(lam, ks, i - 1);
      AffineJoined(lam, s, ks[i - 1], p, p0, d, x, i - 1);
    } else {
      AffineStart(x);
    }
  }

  lemma AffineStart(x: real)
    ensures Affine(Pair(x, x), Pair(0.0, 0.0), Pair(1.0, 1.0), x)
  {
  }

  lemma StageNext(lam: real, s: Registers, ks: seq<real>, x: real, i: nat)
    requires i < |ks| && s.For(|ks|)
    ensures var p := Stage(lam, s, ks, x, i); Stage(lam, s, ks, x, i + 1) == Joined(p, ks[i], AllPass(lam, s, p.b, i))
    ensures var d := Slope(lam, ks, i); Slope(lam, ks, i + 1) == Joined(d, ks[i], Passed(lam, d.b))
  {
    hide Joined, Passed, AllPass;
  }

  /** A stable lattice: every coefficient and the warping coefficient lie strictly between -1 and 1. */
  predicate Stable(lam: real, ks: seq<real>) {
    -1.0 < lam < 1.0 && forall i :: 0 <= i < |ks| ==> -1.0 < ks[i] < 1.0
  }

  /** The upper signal dominates the lower one. */
  predicate Dominant(p: Pair) { p.a > 0.0 && -p.a <= p.b <= p.a }

  lemma DominantStep(p: Pair, k: real, lam: real)
    requires -1.0 < lam < 1.0 && -1.0 < k < 1.0 && Dominant(p)
    ensures Dominant(Joined(p, k, Passed(lam, p.b)))
  {
    Shrunk(p.a, p.b, lam);
    DominantJoin(p.a, Passed(lam, p.b), k);
  }

  lemma DominantJoin(a: real, e: real, k: real)
    requires -a < e < a && -1.0 < k < 1.0
    ensures a - k * e > 0.0
    ensures -(a - k * e) <= e - k * a <= a - k * e
  {
    PositiveProduct(1.0 + k, a - e);
    PositiveProduct(1.0 - k, a + e);
    Expanded(a, e, k);
    Halves(a, e, k * a, k * e, (1.0 + k) * (a - e), (1.0 - k) * (a + e));
  }

  lemma Expanded(a: real, e: real, k: real)
    ensures (1.0 + k) * (a - e) == a - e + k * a - k * e
    ensures (1.0 - k) * (a + e) == a + e - k * a - k * e
  {
  }

  lemma Halves(a: real, e: real, ka: real, ke: real, u: real, v: real)
    requires u > 0.0 && v > 0.0
    requires u == a - e + ka - ke && v == a + e - ka - ke
    ensures a - ke > 0.0
    ensures -(a - ke) <= e - ka <= a - ke
  {
  }

  lemma ShrunkBy(a: real, b: real, g: real)
    requires a > 0.0 && -a <= b <= a && 0.0 <= g < 1.0
    ensures -a < b * g < a
  {
    NonNegativeProduct(a - b, g);
    NonNegativeProduct(a + b, g);
    PositiveProduct(a, 1.0 - g);
  }

  lemma Shrunk(a: real, b: real, f: real)
    requires a > 0.0 && -a <= b <= a && -1.0 < f < 1.0
    ensures -a < b * f < a
  {
    if f >= 0.0 {
      ShrunkBy(a, b, f);
    } else {
      ShrunkBy(a, b, -f);
      assert b * f == -(b * -f);
    }
  }

  /** The gain of a stable lattice is positive, whatever its order. */
  lemma {:induction false} StableGain(lam: real, ks: seq<real>, i: nat)
    requires Stable(lam, ks) && i <= |ks|
    ensures Dominant(Slope(lam, ks, i))
  {
    if i > 0 {
      hide Joined, Dominant;
      StableGain(lam, ks, i - 1);
      var d := Slope(lam, ks, i - 1);
      DominantStep(d, ks[i - 1], lam);
      assert Slope(lam, ks, i) == Joined(d, ks[i - 1], Passed(lam, d.b));
    }
  }

  // ---- The post-filter ----

  /** The response that the first two passes compute: twice the output, taken from the input. */
  function Response(lam: real, s: Registers, ks: seq<real>, x: real): real
    requires s.For(|ks|)
  {
    x - 2.0 * Output(lam, s, ks, x)
  }

  /** The input that the post-filter settles on for the given residual. */
  function Solved(lam: real, s: Registers, ks: seq<real>, residual: real): real
    requires s.For(|ks|)
  {
    var f0, f1 := Response(lam, s, ks, 0.0), Response(lam, s, ks, 1.0);
    var det := 1.0 - f1 + f0;
    if det != 0.0 then (2.0 * residual + f0) / det else 0.0
  }

  /** The output moves with the input, in proportion to the gain. */
  lemma OutputAffine(lam: real, s: Registers, ks: seq<real>, x: real, moved: real)
    requires s.For(|ks|) && moved == x * Gain(lam, ks)
    ensures Output(lam, s, ks, x) == Output(lam, s, ks, 0.0) + moved
  {
    hide Stage, Slope;
    StageAffine(lam, s, ks, x, |ks|);
  }

  /** The two responses give twice the gain and twice the 0-response away. */
  lemma Responses(lam: real, s: Registers, ks: seq<real>)
    requires s.For(|ks|)
    ensures Response(lam, s, ks, 0.0) == -(2.0 * Output(lam, s, ks, 0.0))
    ensures 1.0 - Response(lam, s, ks, 1.0) + Response(lam, s, ks, 0.0) == 2.0 * Gain(lam, ks)
  {
    hide Gain, Output;
    OutputAffine(lam, s, ks, 1.0, Gain(lam, ks));
  }

  /**
   The delay-free loop is solved: the input found is the only one whose output is the residual, as long as
   the gain is not zero. When it is zero the output does not depend on the input, and the filter outputs 0.
   */
  lemma SolvedIsInverse(lam: real, s: Registers, ks: seq<real>, x: real)
    requires s.For(|ks|)
    ensures Gain(lam, ks) != 0.0 ==> Solved(lam, s, ks, Output(lam, s, ks, x)) == x
    ensures Gain(lam, ks) == 0.0 ==> Solved(lam, s, ks, Output(lam, s, ks, x)) == 0.0
  {
    hide Gain, Output, Response;
    var g := Gain(lam, ks);
    var moved := x * g;
    OutputAffine(lam, s, ks, x, moved);
    Responses(lam, s, ks);
    if g != 0.0 {
      Doubled(moved, g, x);
      Quotient(2.0 * moved, 2.0 * g, x);
    }
  }

  lemma Doubled(moved: real, g: real, x: real)
    requires moved == x * g
    ensures 2.0 * moved == 2.0 * g * x
  {
  }

  /** In the other direction: whenever the gain is not zero, the third pass ends at the residual it was given. */
  lemma SolvedOutput(lam: real, s: Registers, ks: seq<real>, residual: real)
    requires s.For(|ks|) && Gain(lam, ks) != 0.0
    ensures Output(lam, s, ks, Solved(lam, s, ks, residual)) == residual
  {
    hide Gain, Output, Solved;
    var g, o := Gain(lam, ks), Output(lam, s, ks, 0.0);
    var x := (residual - o) / g;
    Divided(residual - o, g, x);
    OutputAffine(lam, s, ks, x, x * g);
    SolvedIsInverse(lam, s, ks, x);
  }

  lemma Divided(a: real, b: real, x: real)
    requires b != 0.0 && x == a / b
    ensures x * b == a
  {
  }

  lemma Quotient(a: real, b: real, x: real)
    requires b != 0.0 && a == b * x
    ensures a / b == x
  {
  }

  // ---- What the lattice is ----

  /** What an all-pass section has stored for the next sample. */
  function Store(lam: real, b: real, c: real): real { b - lam * c }

  function Energy(lam: real, x: real, store: real): real { (1.0 - lam * lam) * x * x + store * store }

  /** An all-pass section neither adds nor loses energy: what goes in comes out, or is stored. */
  lemma AllPassKeepsEnergy(lam: real, s: Registers, ks: seq<real>, x: real, i: nat)
    requires s.For(|ks|) && i < |ks|
    ensures var b, r := Stage(lam, s, ks, x, i).b, Shifted(lam, s, ks, x);
      Energy(lam, AllPass(lam, s, b, i), Store(lam, r.b[i], r.c[i])) == Energy(lam, b, Store(lam, s.b[i], s.c[i]))
  {
    var b := Stage(lam, s, ks, x, i).b;
    var c := AllPass(lam, s, b, i);
    AllPassIsStore(lam, s, b, i);
    hide AllPass, Stage, Store, Energy;
    EnergyKept(lam, b, c, Store(lam, s.b[i], s.c[i]), Store(lam, b, c));
  }

  lemma AllPassIsStore(lam: real, s: Registers, b: real, i: nat)
    requires i < |s.b| == |s.c|
    ensures AllPass(lam, s, b, i) == lam * b + Store(lam, s.b[i], s.c[i])
  {
  }

  lemma EnergyKept(lam: real, b: real, c: real, was: real, now: real)
    requires c == lam * b + was && now == Store(lam, b, c)
    ensures Energy(lam, c, now) == Energy(lam, b, was)
  {
    assert now == (1.0 - lam * lam) * b - lam * was;
  }

  function Negated(ks: seq<real>): (r: seq<real>)
    ensures |r| == |ks| && forall i :: 0 <= i < |ks| ==> r[i] == -ks[i]
  {
    seq(|ks|, i requires 0 <= i < |ks| => -ks[i])
  }

  /** Without warping this is the lattice of lpc~, with coefficients of the other sign. */
  lemma {:induction false} UnwarpedIsLattice(s: Registers, ks: seq<real>, x: real, i: nat)
    requires s.For(|ks|) && i <= |ks|
    ensures Stage(0.0, s, ks, x, i) ==
      Pair(Lattice.Forward(Negated(ks), s.b, x, i), Lattice.Backward(Negated(ks), s.b, x, i))
  {
    if i > 0 {
      UnwarpedIsLattice(s, ks, x, i - 1);
      StageNext(0.0, s, ks, x, i - 1);
      UnwarpedSection(s, Stage(0.0, s, ks, x, i - 1).b, i - 1);
      hide Stage, AllPass;
      JoinedStage(Negated(ks), s.b, x, i - 1, ks[i - 1]);
    }
  }

  lemma UnwarpedSection(s: Registers, b: real, i: nat)
    requires i < |s.b| == |s.c|
    ensures AllPass(0.0, s, b, i) == s.b[i]
  {
  }

  lemma JoinedStage(ks: seq<real>, mem: seq<real>, x: real, i: nat, k: real)
    requires i < |ks| == |mem| && k == -ks[i]
    ensures Joined(Pair(Lattice.Forward(ks, mem, x, i), Lattice.Backward(ks, mem, x, i)), k, mem[i])
         == Pair(Lattice.Forward(ks, mem, x, i + 1), Lattice.Backward(ks, mem, x, i + 1))
  {
  }

  lemma UnwarpedShifts(s: Registers, ks: seq<real>, x: real)
    requires s.For(|ks|)
    ensures Shifted(0.0, s, ks, x).b == Lattice.Analyzed(Negated(ks), s.b, x)
  {
    forall i | 0 <= i < |ks|
      ensures Shifted(0.0, s, ks, x).b[i] == Lattice.Analyzed(Negated(ks), s.b, x)[i]
    {
      UnwarpedIsLattice(s, ks, x, i);
    }
  }
}
