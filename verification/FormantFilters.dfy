/**
 autotune~'s formant pre-filter and post-filter over whole runs, with given coefficients and with a common delay.
 */
module FormantFilters {
  import opened Samples
  import opened WarpedLattice

  // ---- Whole runs with given coefficients ----

  ghost predicate Ready(s: Registers, kss: seq<seq<real>>, xs: seq<real>) {
    && |kss| == |xs|
    && |s.b| == |s.c|
    && forall t :: 0 <= t < |kss| ==> |kss[t]| == |s.b|
  }

  /** The registers of the pre-filter after a run. */
  ghost function PreRegisters(lam: real, s: Registers, kss: seq<seq<real>>, xs: seq<real>): (r: Registers)
    requires Ready(s, kss, xs)
    ensures r.For(|s.b|)
  {
    if xs == [] then s
    else
      var n := |xs| - 1;
      Shifted(lam, PreRegisters(lam, s, kss[..n], xs[..n]), kss[n], xs[n])
  }

  /** What the pre-filter outputs over a run. */
  ghost function PreOutput(lam: real, s: Registers, kss: seq<seq<real>>, xs: seq<real>): (r: seq<real>)
    requires Ready(s, kss, xs)
    ensures |r| == |xs|
  {
    if xs == [] then []
    else
      var n := |xs| - 1;
      PreOutput(lam, s, kss[..n], xs[..n]) + [Output(lam, PreRegisters(lam, s, kss[..n], xs[..n]), kss[n], xs[n])]
  }

  ghost function PostRegisters(lam: real, s: Registers, kss: seq<seq<real>>, rs: seq<real>): (r: Registers)
    requires Ready(s, kss, rs)
    ensures r.For(|s.b|)
  {
    if rs == [] then s
    else
      var n := |rs| - 1;
      var before := PostRegisters(lam, s, kss[..n], rs[..n]);
      Shifted(lam, before, kss[n], Solved(lam, before, kss[n], rs[n]))
  }

  ghost function PostOutput(lam: real, s: Registers, kss: seq<seq<real>>, rs: seq<real>): (r: seq<real>)
    requires Ready(s, kss, rs)
    ensures |r| == |rs|
  {
    if rs == [] then []
    else
      var n := |rs| - 1;
      PostOutput(lam, s, kss[..n], rs[..n]) + [Solved(lam, PostRegisters(lam, s, kss[..n], rs[..n]), kss[n], rs[n])]
  }

  /** The samples that can be recovered: those met with a non-zero gain, and silence. */
  ghost predicate Recoverable(lam: real, kss: seq<seq<real>>, xs: seq<real>)
    requires |kss| == |xs|
  {
    forall t :: 0 <= t < |xs| ==> Gain(lam, kss[t]) != 0.0 || xs[t] == 0.0
  }

  /**
   From equal registers and with the same coefficients, the post-filter returns the pre-filter's input
   exactly when every sample is recoverable, and then the two filters' registers stay equal.
   */
  lemma {:induction false} PostUndoesPre(lam: real, s: Registers, kss: seq<seq<real>>, xs: seq<real>)
    requires Ready(s, kss, xs)
    ensures PostOutput(lam, s, kss, PreOutput(lam, s, kss, xs)) == xs <==> Recoverable(lam, kss, xs)
    ensures Recoverable(lam, kss, xs) ==>
              PostRegisters(lam, s, kss, PreOutput(lam, s, kss, xs)) == PreRegisters(lam, s, kss, xs)
  {
    if xs != [] {
      var n := |xs| - 1;
      PostUndoesPre(lam, s, kss[..n], xs[..n]);
      PostUndoesLast(lam, s, kss, xs, kss[..n], xs[..n]);
    }
  }

  /** One more sample through either filter. */
  lemma PreLast(lam: real, s: Registers, kss: seq<seq<real>>, xs: seq<real>, kss0: seq<seq<real>>, xs0: seq<real>,
      ks: seq<real>, x: real)
    requires kss == kss0 + [ks] && xs == xs0 + [x]
    requires Ready(s, kss0, xs0) && |ks| == |s.b|
    ensures Ready(s, kss, xs)
    ensures PreRegisters(lam, s, kss, xs) == Shifted(lam, PreRegisters(lam, s, kss0, xs0), ks, x)
    ensures PreOutput(lam, s, kss, xs) == PreOutput(lam, s, kss0,
      xs0) + [Output(lam, PreRegisters(lam, s, kss0, xs0), ks, x)]
  {
    hide Shifted, Output;
    assert kss[..|xs0|] == kss0 && xs[..|xs0|] == xs0;
  }

  lemma PostLast(lam: real, s: Registers, kss: seq<seq<real>>, rs: seq<real>, kss0: seq<seq<real>>, rs0: seq<real>,
      ks: seq<real>, r: real)
    requires kss == kss0 + [ks] && rs == rs0 + [r]
    requires Ready(s, kss0, rs0) && |ks| == |s.b|
    ensures Ready(s, kss, rs)
    ensures var regs := PostRegisters(lam, s, kss0, rs0);
      && PostRegisters(lam, s, kss, rs) == Shifted(lam, regs, ks, Solved(lam, regs, ks, r))
      && PostOutput(lam, s, kss, rs) == PostOutput(lam, s, kss0, rs0) + [Solved(lam, regs, ks, r)]
  {
    hide Solved, Shifted, Output;
    assert kss[..|rs0|] == kss0 && rs[..|rs0|] == rs0;
  }

  /** The induction step: one more sample. */
  lemma PostUndoesLast(lam: real, s: Registers, kss: seq<seq<real>>, xs: seq<real>, kss0: seq<seq<real>>,
      xs0: seq<real>)
    requires Ready(s, kss, xs) && Ready(s, kss0, xs0)
    requires xs != [] && kss0 == kss[..|xs| - 1] && xs0 == xs[..|xs| - 1]
    requires PostOutput(lam, s, kss0, PreOutput(lam, s, kss0, xs0)) == xs0 <==> Recoverable(lam, kss0, xs0)
    requires Recoverable(lam, kss0, xs0) ==>
               PostRegisters(lam, s, kss0, PreOutput(lam, s, kss0, xs0)) == PreRegisters(lam, s, kss0, xs0)
    ensures PostOutput(lam, s, kss, PreOutput(lam, s, kss, xs)) == xs <==> Recoverable(lam, kss, xs)
    ensures Recoverable(lam, kss, xs) ==>
              PostRegisters(lam, s, kss, PreOutput(lam, s, kss, xs)) == PreRegisters(lam, s, kss, xs)
  {
    hide PreOutput, PreRegisters, PostOutput, PostRegisters, Recoverable, Solved, Shifted, Output, Gain;
    var n := |xs| - 1;
    var rs0, regs := PreOutput(lam, s, kss0, xs0), PreRegisters(lam, s, kss0, xs0);
    var r := Output(lam, regs, kss[n], xs[n]);
    assert kss == kss0 + [kss[n]] && xs == xs0 + [xs[n]];
    PreLast(lam, s, kss, xs, kss0, xs0, kss[n], xs[n]);
    PostLast(lam, s, kss, rs0 + [r], kss0, rs0, kss[n], r);
    RecoverableLast(lam, kss, xs, kss0, xs0);
    SolvedIsInverse(lam, regs, kss[n], xs[n]);
    LastEqual(PostOutput(lam, s, kss0, rs0), xs0, Solved(lam, PostRegisters(lam, s, kss0, rs0), kss[n], r), xs[n]);
  }

  lemma LastEqual(a: seq<real>, b: seq<real>, x: real, y: real)
    requires |a| == |b|
    ensures a + [x] == b + [y] <==> a == b && x == y
  {
    assert (a + [x])[..|a|] == a && (b + [y])[..|b|] == b;
    assert (a + [x])[|a|] == x && (b + [y])[|b|] == y;
  }

  lemma RecoverableLast(lam: real, kss: seq<seq<real>>, xs: seq<real>, kss0: seq<seq<real>>, xs0: seq<real>)
    requires |kss| == |xs| > 0 && kss0 == kss[..|xs| - 1] && xs0 == xs[..|xs| - 1]
    ensures Recoverable(lam, kss, xs) <==>
              Recoverable(lam, kss0, xs0) && (Gain(lam, kss[|xs| - 1]) != 0.0 || xs[|xs| - 1] == 0.0)
  {
    hide Gain;
    if Recoverable(lam, kss, xs) {
      forall t | 0 <= t < |xs0|
        ensures Gain(lam, kss0[t]) != 0.0 || xs0[t] == 0.0
      {
        assert kss0[t] == kss[t] && xs0[t] == xs[t];
      }
    } else {
      var t :| 0 <= t < |xs| && !(Gain(lam, kss[t]) != 0.0 || xs[t] == 0.0);
      assert t < |xs0| ==> kss0[t] == kss[t] && xs0[t] == xs[t];
    }
  }

  /** With stable coefficients nothing is ever lost. */
  lemma StableRunRecovers(lam: real, s: Registers, kss: seq<seq<real>>, xs: seq<real>)
    requires Ready(s, kss, xs)
    requires forall t :: 0 <= t < |kss| ==> Stable(lam, kss[t])
    ensures PostOutput(lam, s, kss, PreOutput(lam, s, kss, xs)) == xs
    ensures PostRegisters(lam, s, kss, PreOutput(lam, s, kss, xs)) == PreRegisters(lam, s, kss, xs)
  {
    forall t | 0 <= t < |kss|
      ensures Gain(lam, kss[t]) != 0.0
    {
      StableGain(lam, kss[t], |kss[t]|);
    }
    PostUndoesPre(lam, s, kss, xs);
  }

  /** A run that is lost: one coefficient of -2 cancels the gain, and a unit sample comes back as 0. */
  lemma LostSample()
    ensures var s := Registers([0.0], [0.0]);
      PostOutput(-0.5, s, [[-2.0]], PreOutput(-0.5, s, [[-2.0]], [1.0])) != [1.0]
  {
    var s := Registers([0.0], [0.0]);
    PostUndoesPre(-0.5, s, [[-2.0]], [1.0]);
    assert Slope(-0.5, [-2.0], 0) == Pair(1.0, 1.0);
    assert Gain(-0.5, [-2.0]) == 0.0;
    assert !Recoverable(-0.5, [[-2.0]], [1.0]);
  }

  // ---- Warp ----

  /** The post-filter's warping coefficient; w is two to the power of half the warp setting. */
  function Warped(lam: real, w: real): (r: real)
    requires -1.0 < lam < 1.0 && w > 0.0
  {
    WarpRatio(lam, w);
    var tf := w * (1.0 + lam) / (1.0 - lam);
    (tf - 1.0) / (tf + 1.0)
  }

  lemma WarpRatio(lam: real, w: real)
    requires -1.0 < lam < 1.0 && w > 0.0
    ensures w * (1.0 + lam) / (1.0 - lam) > 0.0
  {
    PositiveProduct(w, 1.0 + lam);
    RatioPositive(w * (1.0 + lam), 1.0 - lam);
  }

  lemma RatioPositive(a: real, b: real)
    requires a > 0.0 && b > 0.0
    ensures a / b > 0.0
  {
    var q := a / b;
    assert q * b == a;
    if q <= 0.0 {
      NonNegativeProduct(-q, b);
    }
  }

  /** The two filters are warped alike exactly when the warp setting is zero. */
  lemma WarpZero(lam: real, w: real)
    requires -1.0 < lam < 1.0 && w > 0.0
    ensures Warped(lam, w) == lam <==> w == 1.0
  {
    WarpRatio(lam, w);
    var u, v := 1.0 + lam, 1.0 - lam;
    WarpSolves(lam, w, w * u / v, Warped(lam, w));
  }

  /** Warping stretches the ratio of 1 + lam to 1 - lam by w, and keeps a warping coefficient between -1 and 1. */
  lemma WarpStretches(lam: real, w: real)
    requires -1.0 < lam < 1.0 && w > 0.0
    ensures var r := Warped(lam, w);
      -1.0 < r < 1.0 && (1.0 + r) * (1.0 - lam) == w * (1.0 + lam) * (1.0 - r)
  {
    WarpRatio(lam, w);
    var tf := w * (1.0 + lam) / (1.0 - lam);
    var r := (tf - 1.0) / (tf + 1.0);
    Cleared(w * (1.0 + lam), 1.0 - lam, tf);
    Cleared(tf - 1.0, tf + 1.0, r);
    RatioPositive(2.0, tf + 1.0);
    var low := 2.0 / (tf + 1.0);
    Cleared(2.0, tf + 1.0, low);
    RatioComplement(tf, r, low);
    PositiveProduct(tf, low);
    Regrouped(tf, low, lam, w);
  }

  lemma RatioComplement(tf: real, r: real, low: real)
    requires tf > 0.0 && r * (tf + 1.0) == tf - 1.0 && low * (tf + 1.0) == 2.0
    ensures 1.0 - r == low && 1.0 + r == tf * low
  {
    assert (1.0 - r) * (tf + 1.0) == low * (tf + 1.0);
    Cancel(tf + 1.0, 1.0 - r, low);
    assert tf * low + low == 2.0;
  }

  lemma Regrouped(tf: real, low: real, lam: real, w: real)
    requires tf * (1.0 - lam) == w * (1.0 + lam)
    ensures tf * low * (1.0 - lam) == w * (1.0 + lam) * low
  {
    assert tf * low * (1.0 - lam) == tf * (1.0 - lam) * low;
  }

  lemma WarpSolves(lam: real, w: real, tf: real, q: real)
    requires -1.0 < lam < 1.0 && tf > 0.0
    requires tf == w * (1.0 + lam) / (1.0 - lam) && q == (tf - 1.0) / (tf + 1.0)
    ensures q == lam <==> w == 1.0
  {
    Cleared(w * (1.0 + lam), 1.0 - lam, tf);
    Cleared(tf - 1.0, tf + 1.0, q);
    if q == lam {
      assert lam * (tf + 1.0) == tf - 1.0;
      assert tf * (1.0 - lam) == 1.0 + lam;
      Cancel(1.0 + lam, w, 1.0);
    }
    if w == 1.0 {
      assert tf * (1.0 - lam) == 1.0 + lam;
      assert lam * (tf + 1.0) == tf - 1.0;
      Cancel(tf + 1.0, q, lam);
    }
  }

  lemma Cleared(a: real, b: real, q: real)
    requires b != 0.0 && q == a / b
    ensures q * b == a
  {
  }

  lemma Cancel(c: real, a: real, b: real)
    requires c != 0.0 && a * c == b * c
    ensures a == b
  {
    assert (a - b) * c == 0.0;
  }

  // ---- Runs through the ring, which delays everything ----

  ghost function ZeroColumns(d: nat, order: nat): (r: seq<seq<real>>)
    ensures |r| == d && forall i :: 0 <= i < d ==> r[i] == Zeros(order)
  {
    seq(d, i => Zeros(order))
  }

  ghost function AtRest(order: nat): Registers { Registers(Zeros(order), Zeros(order)) }

  /** A filter at rest, with zero coefficients, stays at rest on silence. */
  lemma {:induction false} RestStage(lam: real, order: nat, i: nat)
    requires i <= order
    ensures Stage(lam, AtRest(order), Zeros(order), 0.0, i) == Pair(0.0, 0.0)
  {
    if i > 0 {
      RestStage(lam, order, i - 1);
      StageNext(lam, AtRest(order), Zeros(order), 0.0, i - 1);
      hide Stage;
    }
  }

  lemma RestShifted(lam: real, order: nat)
    ensures Output(lam, AtRest(order), Zeros(order), 0.0) == 0.0
    ensures Shifted(lam, AtRest(order), Zeros(order), 0.0) == AtRest(order)
  {
    hide Stage;
    var s := Shifted(lam, AtRest(order), Zeros(order), 0.0);
    forall i | 0 <= i < order
      ensures s.b[i] == 0.0 && s.c[i] == 0.0
    {
      RestStage(lam, order, i);
      assert AllPass(lam, AtRest(order), 0.0, i) == 0.0;
    }
    RestStage(lam, order, order);
    assert s.b == Zeros(order) && s.c == Zeros(order);
  }

  lemma {:induction false} ZeroGain(lam: real, order: nat, i: nat)
    requires i <= order
    ensures Slope(lam, Zeros(order), i).a == 1.0
  {
    if i > 0 {
      ZeroGain(lam, order, i - 1);
    }
  }

  lemma {:induction false} RestRun(lam: real, order: nat, d: nat)
    ensures PreRegisters(lam, AtRest(order), ZeroColumns(d, order), Zeros(d)) == AtRest(order)
    ensures PreOutput(lam, AtRest(order), ZeroColumns(d, order), Zeros(d)) == Zeros(d)
  {
    if d > 0 {
      assert ZeroColumns(d, order)[..d - 1] == ZeroColumns(d - 1, order) && Zeros(d)[..d - 1] == Zeros(d - 1);
      RestRun(lam, order, d - 1);
      RestShifted(lam, order);
    }
  }

  /** A run that starts with d samples of rest is the run without them, d samples later. */
  lemma {:induction false} DelayedRun(lam: real, order: nat, d: nat, kss: seq<seq<real>>, xs: seq<real>)
    requires Ready(AtRest(order), kss, xs)
    ensures PreRegisters(lam, AtRest(order), ZeroColumns(d, order) + kss, Zeros(d) + xs)
         == PreRegisters(lam, AtRest(order), kss, xs)
    ensures PreOutput(lam, AtRest(order), ZeroColumns(d, order) + kss, Zeros(d) + xs)
         == Zeros(d) + PreOutput(lam, AtRest(order), kss, xs)
    decreases |xs|
  {
    if xs == [] {
      assert ZeroColumns(d, order) + kss == ZeroColumns(d, order) && Zeros(d) + xs == Zeros(d);
      RestRun(lam, order, d);
    } else {
      hide PreOutput, PreRegisters, Ready;
      var n := |xs| - 1;
      assert Ready(AtRest(order), kss[..n], xs[..n]) by { ReadyPrefix(AtRest(order), kss, xs, n); }
      DelayedRun(lam, order, d, kss[..n], xs[..n]);
      DelayedStep(lam, order, d, kss, xs, kss[..n], xs[..n]);
    }
  }

  lemma ReadyPrefix(s: Registers, kss: seq<seq<real>>, xs: seq<real>, n: nat)
    requires Ready(s, kss, xs) && n <= |xs|
    ensures Ready(s, kss[..n], xs[..n])
  {
  }

  lemma DelayedStep(lam: real, order: nat, d: nat, kss: seq<seq<real>>, xs: seq<real>, kss0: seq<seq<real>>,
      xs0: seq<real>)
    requires Ready(AtRest(order), kss, xs) && Ready(AtRest(order), kss0, xs0) && xs != []
    requires kss0 == kss[..|xs| - 1] && xs0 == xs[..|xs| - 1]
    requires PreRegisters(lam, AtRest(order), ZeroColumns(d, order) + kss0, Zeros(d) + xs0)
          == PreRegisters(lam, AtRest(order), kss0, xs0)
    requires PreOutput(lam, AtRest(order), ZeroColumns(d, order) + kss0, Zeros(d) + xs0)
          == Zeros(d) + PreOutput(lam, AtRest(order), kss0, xs0)
    ensures PreRegisters(lam, AtRest(order), ZeroColumns(d, order) + kss, Zeros(d) + xs)
         == PreRegisters(lam, AtRest(order), kss, xs)
    ensures PreOutput(lam, AtRest(order), ZeroColumns(d, order) + kss, Zeros(d) + xs)
         == Zeros(d) + PreOutput(lam, AtRest(order), kss, xs)
  {
    hide Output, Shifted, PreOutput, PreRegisters;
    var n, rest := |xs| - 1, AtRest(order);
    var zk, zx := ZeroColumns(d, order), Zeros(d);
    assert kss == kss0 + [kss[n]] && xs == xs0 + [xs[n]];
    assert zk + kss == zk + kss0 + [kss[n]] && zx + xs == zx + xs0 + [xs[n]];
    PreLast(lam, rest, kss, xs, kss0, xs0, kss[n], xs[n]);
    PreLast(lam, rest, zk + kss, zx + xs, zk + kss0, zx + xs0, kss[n], xs[n]);
  }

  /**
   Delayed by d samples together with its coefficients, the residual comes back as the pre-filter's input,
   d samples late, exactly when every sample of the run is recoverable.
   */
  lemma DelayedRoundTrip(lam: real, order: nat, d: nat, kss: seq<seq<real>>, xs: seq<real>)
    requires Ready(AtRest(order), kss, xs)
    ensures PostOutput(lam, AtRest(order), ZeroColumns(d, order) + kss,
      Zeros(d) + PreOutput(lam, AtRest(order), kss, xs))
         == Zeros(d) + xs
       <==> Recoverable(lam, kss, xs)
  {
    hide PreOutput, PostOutput, Gain;
    var kss', xs' := ZeroColumns(d, order) + kss, Zeros(d) + xs;
    DelayedRun(lam, order, d, kss, xs);
    PostUndoesPre(lam, AtRest(order), kss', xs');
    assert Recoverable(lam, kss', xs') <==> Recoverable(lam, kss, xs) by {
      if Recoverable(lam, kss', xs') {
        forall t | 0 <= t < |xs|
          ensures Gain(lam, kss[t]) != 0.0 || xs[t] == 0.0
        {
          assert kss'[d + t] == kss[t] && xs'[d + t] == xs[t];
        }
      }
    }
  }
}
