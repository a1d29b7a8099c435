/**
 What lpc~'s lattice computes: the error of a linear predictor whose coefficients follow from the reflection
 coefficients by the step-up recursion.
 */
module LatticePredictor {
  import opened Samples
  import opened RealSums
  import opened Lattice

  /** Coefficient j of the prediction-error filter of order i: each order adds its reflection, reversed. */
  function Predictor(k: seq<real>, i: nat, j: int): real
    requires i <= |k|
  {
    if i == 0 then (if j == 0 then 1.0 else 0.0)
    else Predictor(k, i - 1, j) + k[i - 1] * Predictor(k, i - 1, i - j)
  }

  /** A predictor of order i has i + 1 coefficients, the first of which is one. */
  lemma {:induction false} PredictorEnds(k: seq<real>, i: nat, j: int)
    requires i <= |k|
    ensures j < 0 || j > i ==> Predictor(k, i, j) == 0.0
    ensures j == 0 ==> Predictor(k, i, j) == 1.0
  {
    if i > 0 {
      PredictorEnds(k, i - 1, j);
      PredictorEnds(k, i - 1, i - j);
    }
  }

  /** The terms of the prediction error of order i at time t, and of the error backwards. */
  ghost function ErrorAt(k: seq<real>, i: nat, xs: seq<real>, t: int): int -> real
    requires i <= |k|
  {
    j => Predictor(k, i, j) * At(xs, t - j)
  }

  ghost function BackwardAt(k: seq<real>, i: nat, xs: seq<real>, t: int): int -> real
    requires i <= |k|
  {
    j => Predictor(k, i, i - j) * At(xs, t - j)
  }

  ghost function PredictionError(k: seq<real>, i: nat, xs: seq<real>, t: int): real
    requires i <= |k|
  {
    Sum(ErrorAt(k, i, xs, t), 0, i + 1)
  }

  ghost function BackwardError(k: seq<real>, i: nat, xs: seq<real>, t: int): real
    requires i <= |k|
  {
    Sum(BackwardAt(k, i, xs, t), 0, i + 1)
  }

  /** One coefficient more may be asked for, as it is zero. */
  lemma ErrorPadded(k: seq<real>, i: nat, xs: seq<real>, t: int)
    requires i <= |k|
    ensures Sum(ErrorAt(k, i, xs, t), 0, i + 2) == PredictionError(k, i, xs, t)
  {
    PredictorEnds(k, i, i + 1);
    assert ErrorAt(k, i, xs, t)(i + 1) == 0.0;
  }

  /** The terms of the error backwards a sample late, in the places of the error of order i + 1. */
  ghost function LateAt(k: seq<real>, i: nat, xs: seq<real>, t: int): int -> real
    requires i <= |k|
  {
    j => Predictor(k, i, i + 1 - j) * At(xs, t - j)
  }

  lemma LateSum(k: seq<real>, i: nat, xs: seq<real>, t: int)
    requires i <= |k|
    ensures Sum(LateAt(k, i, xs, t), 0, i + 2) == BackwardError(k, i, xs, t - 1)
  {
    PredictorEnds(k, i, i + 1);
    var late, back := LateAt(k, i, xs, t), BackwardAt(k, i, xs, t - 1);
    assert late(0) == 0.0;
    SumFirst(late, 0, i + 2);
    assert forall j :: back(j) == late(j + 1);
    SumShift(back, late, 0, i + 1, 1);
  }

  ghost predicate Adds(f: int -> real, g: int -> real, m: real, h: int -> real) {
    forall j :: h(j) == f(j) + m * g(j)
  }

  lemma {:induction false} SumAdds(f: int -> real, g: int -> real, m: real, h: int -> real, n: nat)
    requires Adds(f, g, m, h)
    ensures Sum(h, 0, n) == Sum(f, 0, n) + m * Sum(g, 0, n)
  {
    if n > 0 {
      SumAdds(f, g, m, h, n - 1);
      assert h(n - 1) == f(n - 1) + m * g(n - 1);
    }
  }

  /** Both errors of one order more. */
  lemma ErrorNext(k: seq<real>, i: nat, xs: seq<real>, t: int)
    requires i < |k|
    ensures PredictionError(k, i + 1, xs, t) == PredictionError(k, i, xs, t) + k[i] * BackwardError(k, i, xs, t - 1)
    ensures BackwardError(k, i + 1, xs, t) == BackwardError(k, i, xs, t - 1) + k[i] * PredictionError(k, i, xs, t)
  {
    ErrorPadded(k, i, xs, t);
    LateSum(k, i, xs, t);
    TermsAdd(k, i, xs, t);
    hide Adds, ErrorAt, LateAt, BackwardAt, Predictor, Sum;
    SumAdds(ErrorAt(k, i, xs, t), LateAt(k, i, xs, t), k[i], ErrorAt(k, i + 1, xs, t), i + 2);
    SumAdds(LateAt(k, i, xs, t), ErrorAt(k, i, xs, t), k[i], BackwardAt(k, i + 1, xs, t), i + 2);
  }

  lemma TermsAdd(k: seq<real>, i: nat, xs: seq<real>, t: int)
    requires i < |k|
    ensures Adds(ErrorAt(k, i, xs, t), LateAt(k, i, xs, t), k[i], ErrorAt(k, i + 1, xs, t))
    ensures Adds(LateAt(k, i, xs, t), ErrorAt(k, i, xs, t), k[i], BackwardAt(k, i + 1, xs, t))
  {
    var f, late := ErrorAt(k, i, xs, t), LateAt(k, i, xs, t);
    forall j
      ensures ErrorAt(k, i + 1, xs, t)(j) == f(j) + k[i] * late(j)
      ensures BackwardAt(k, i + 1, xs, t)(j) == late(j) + k[i] * f(j)
    {
      Distributed(Predictor(k, i, j), k[i], Predictor(k, i, i + 1 - j), At(xs, t - j));
      Distributed(Predictor(k, i, i + 1 - j), k[i], Predictor(k, i, j), At(xs, t - j));
    }
  }

  lemma Distributed(a: real, m: real, b: real, x: real)
    ensures (a + m * b) * x == a * x + m * (b * x)
  {
  }

  /** The memory of the lattice before sample t of a block. */
  function MemoryAt(k: seq<real>, xs: seq<real>, t: nat): (mem: seq<real>)
    requires t <= |xs|
    ensures |mem| == |k|
  {
    AnalysisMemory(k, Zeros(|k|), xs[..t])
  }

  lemma MemoryNext(k: seq<real>, xs: seq<real>, t: nat, i: nat)
    requires 0 < t <= |xs| && i < |k|
    ensures MemoryAt(k, xs, t)[i] == Backward(k, MemoryAt(k, xs, t - 1), xs[t - 1], i)
  {
    assert xs[..t][..t - 1] == xs[..t - 1];
  }

  /** The two signals after i stages are the errors of order i, forwards and backwards. */
  lemma {:induction false} StagesPredict(k: seq<real>, xs: seq<real>, t: nat, i: nat)
    requires t < |xs| && i <= |k|
    ensures Forward(k, MemoryAt(k, xs, t), xs[t], i) == PredictionError(k, i, xs, t)
    ensures Backward(k, MemoryAt(k, xs, t), xs[t], i) == BackwardError(k, i, xs, t)
    decreases i
  {
    if i == 0 {
      FirstError(k, xs, t);
    } else {
      hide AnalysisMemory, PredictionError, BackwardError, MemoryAt, Forward, Backward;
      StagesPredict(k, xs, t, i - 1);
      if t > 0 {
        StagesPredict(k, xs, t - 1, i - 1);
      }
      StageMemory(k, xs, t, i - 1);
      ErrorNext(k, i - 1, xs, t);
      StageStep(k, MemoryAt(k, xs, t), xs[t], i - 1, PredictionError(k, i - 1, xs, t),
        BackwardError(k, i - 1, xs, t - 1));
    }
  }

  lemma StageStep(k: seq<real>, mem: seq<real>, v: real, i: nat, forth: real, back: real)
    requires i < |k| <= |mem| && Forward(k, mem, v, i) == forth && mem[i] == back
    ensures Forward(k, mem, v, i + 1) == forth + k[i] * back
    ensures Backward(k, mem, v, i + 1) == back + k[i] * forth
  {
  }

  lemma FirstError(k: seq<real>, xs: seq<real>, t: nat)
    requires t < |xs|
    ensures PredictionError(k, 0, xs, t) == xs[t] == BackwardError(k, 0, xs, t)
  {
    var f, g := ErrorAt(k, 0, xs, t), BackwardAt(k, 0, xs, t);
    assert Sum(f, 0, 1) == Sum(f, 0, 0) + f(0);
    assert Sum(g, 0, 1) == Sum(g, 0, 0) + g(0);
  }

  /** A stage remembers what entered it a sample before; before the first, nothing did. */
  lemma StageMemory(k: seq<real>, xs: seq<real>, t: nat, i: nat)
    requires t < |xs| && i < |k|
    ensures t > 0 ==> MemoryAt(k, xs, t)[i] == Backward(k, MemoryAt(k, xs, t - 1), xs[t - 1], i)
    ensures t == 0 ==> MemoryAt(k, xs, t)[i] == BackwardError(k, i, xs, t - 1) == 0.0
  {
    if t > 0 {
      MemoryNext(k, xs, t, i);
    } else {
      var back := BackwardAt(k, i, xs, -1);
      forall j | 0 <= j < i + 1
        ensures back(j) == 0.0
      {
        assert At(xs, -1 - j) == 0.0;
      }
      SumZero(back, 0, i + 1);
    }
  }

  /** The residual of a block is the error of the predictor: the sample less what the ones before it foretell. */
  lemma ResidualIsPredictionError(k: seq<real>, xs: seq<real>, t: nat)
    requires t < |xs|
    ensures Residual(k, Zeros(|k|), xs)[t] == Sum(ErrorAt(k, |k|, xs, t), 0, |k| + 1)
  {
    ResidualAt(k, xs, t);
    StagesPredict(k, xs, t, |k|);
  }

  lemma {:induction false} ResidualAt(k: seq<real>, xs: seq<real>, t: nat)
    requires t < |xs|
    ensures Residual(k, Zeros(|k|), xs)[t] == Forward(k, MemoryAt(k, xs, t), xs[t], |k|)
    decreases |xs|
  {
    hide AnalysisMemory, Forward;
    var before := xs[..|xs| - 1];
    if t < |xs| - 1 {
      ResidualAt(k, before, t);
      assert before[..t] == xs[..t];
    }
  }
}
