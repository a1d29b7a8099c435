/**
 Whole runs of the formant corrector: the coefficients that the pre-filter adapts by itself, and a corrector with no
 pitch shifter between its two filters, whose residuals reach the post-filter through the ring.
 */
module FormantRuns {
  import opened Samples
  import opened WarpedLattice
  import opened FormantFilters
  import opened FormantCorrector

  // ---- The coefficients of a run ----

  /** Averages, registers and coefficients after a run of the pre-filter from rest. */
  datatype Trace = Trace(ad: Adaptation, regs: Registers, columns: seq<seq<real>>)

  ghost function Trained(lam: real, alph: real, order: nat, xs: seq<real>): (t: Trace)
    requires 0.0 <= alph <= 1.0
    ensures t.ad.For(order) && t.regs.For(order) && |t.columns| == |xs|
    ensures forall i :: 0 <= i < |xs| ==> |t.columns[i]| == order
  {
    if xs == [] then Trace(Adaptation(Zeros(order), Zeros(order), Zeros(order)), AtRest(order), [])
    else
      var n := |xs| - 1;
      var t := Trained(lam, alph, order, xs[..n]);
      var ks := Adapted(lam, alph, t.ad, t.regs, xs[n]);
      Trace(Averages(lam, alph, t.ad, t.regs, xs[n]), Shifted(lam, t.regs, ks, xs[n]), t.columns + [ks])
  }

  lemma TrainedNext(lam: real, alph: real, order: nat, xs: seq<real>, x: real)
    requires 0.0 <= alph <= 1.0
    ensures var t := Trained(lam, alph, order, xs);
      var ks := Adapted(lam, alph, t.ad, t.regs, x);
      Trained(lam, alph, order, xs + [x])
        == Trace(Averages(lam, alph, t.ad, t.regs, x), Shifted(lam, t.regs, ks, x), t.columns + [ks])
  {
    hide Averages, Shifted, Adapted;
    assert (xs + [x])[..|xs|] == xs;
  }

  /** The coefficients of a run are given coefficients for the pre-filter. */
  lemma {:induction false} TrainedRegisters(lam: real, alph: real, order: nat, xs: seq<real>)
    requires 0.0 <= alph <= 1.0
    ensures var t := Trained(lam, alph, order, xs);
      Ready(AtRest(order), t.columns, xs) && t.regs == PreRegisters(lam, AtRest(order), t.columns, xs)
  {
    if xs != [] {
      var n := |xs| - 1;
      var t := Trained(lam, alph, order, xs[..n]);
      TrainedRegisters(lam, alph, order, xs[..n]);
      assert xs == xs[..n] + [xs[n]];
      TrainedNext(lam, alph, order, xs[..n], xs[n]);
      hide *;
      PreLast(lam, AtRest(order), Trained(lam, alph, order, xs).columns, xs, t.columns, xs[..n],
        Adapted(lam, alph, t.ad, t.regs, xs[n]), xs[n]);
    }
  }

  // ---- What the averages settle to ----

  /** The quotient that stage i goes towards after a run. */
  ghost function Quotient(lam: real, alph: real, order: nat, xs: seq<real>, i: nat): real
    requires 0.0 <= alph <= 1.0 && i < order
  {
    var ad := Trained(lam, alph, order, xs).ad;
    ad.fk[i] / (ad.sig[i] + 0.000001)
  }

  /** The last column stored is what the coefficients have been smoothed to. */
  lemma LastColumn(lam: real, alph: real, order: nat, xs: seq<real>)
    requires 0.0 <= alph <= 1.0 && xs != []
    ensures var t := Trained(lam, alph, order, xs); t.columns[|xs| - 1] == t.ad.smooth
  {
    var n := |xs| - 1;
    var t := Trained(lam, alph, order, xs[..n]);
    SmoothIsAdapted(lam, alph, t.ad, t.regs, xs[n]);
    hide Averages, Adapted, Shifted;
  }

  /** What has approached a level from zero for n samples. */
  predicate Settled(alph: real, level: real, n: nat, now: real) {
    now == level * (1.0 - Raised(alph, n))
  }

  lemma Settles(alph: real, level: real, n: nat, was: real, now: real)
    requires Settled(alph, level, n, was) && Moves(alph, was, level, now)
    ensures Settled(alph, level, n + 1, now)
  {
    var r := Raised(alph, n);
    var lr := level * r;
    assert level - was == lr;
    assert (1.0 - alph) * lr == lr - alph * lr;
    assert level * (alph * r) == alph * lr;
  }

  lemma SettledAtRest(lam: real, alph: real, order: nat, i: nat, level: real)
    requires 0.0 <= alph <= 1.0 && i < order
    ensures Settled(alph, level, 0, Trained(lam, alph, order, []).ad.smooth[i])
    ensures Settled(alph, level, 0, Trained(lam, alph, order, []).ad.sig[i])
  {
  }

  lemma TrainedLast(lam: real, alph: real, order: nat, xs: seq<real>)
    requires 0.0 <= alph <= 1.0 && xs != []
    ensures var n := |xs| - 1; var t := Trained(lam, alph, order, xs[..n]);
      Trained(lam, alph, order, xs).ad == Averages(lam, alph, t.ad, t.regs, xs[n])
  {
    hide Averages, Adapted, Shifted;
  }

  /**
   While its quotient stays at q, the coefficient of a stage after n samples is q times 1 - alph^n: it approaches the
   quotient and is not set to it.
   */
  lemma {:induction false} CoefficientSettles(lam: real, alph: real, order: nat, xs: seq<real>, i: nat, q: real)
    requires 0.0 <= alph <= 1.0 && i < order
    requires forall m :: 0 < m <= |xs| ==> Quotient(lam, alph, order, xs[..m], i) == q
    ensures Settled(alph, q, |xs|, Trained(lam, alph, order, xs).ad.smooth[i])
    decreases |xs|
  {
    hide Trained, Settled, Moves, Quotient, Raised;
    if xs != [] {
      var n := |xs| - 1;
      var t := Trained(lam, alph, order, xs[..n]);
      assert forall m :: 0 < m <= n ==> xs[..n][..m] == xs[..m];
      assert xs[..|xs|] == xs && Quotient(lam, alph, order, xs[..|xs|], i) == q;
      MovedCoefficient(lam, alph, order, xs, i);
      CoefficientSettles(lam, alph, order, xs[..n], i, q);
      Settles(alph, q, n, t.ad.smooth[i], Trained(lam, alph, order, xs).ad.smooth[i]);
    } else {
      SettledAtRest(lam, alph, order, i, q);
    }
  }

  predicate HasPower(x: real, power: real) { x * x == power }

  /** Under samples of constant power, the power of the first stage after n of them is that power times 1 - alph^n. */
  lemma {:induction false} PowerSettles(lam: real, alph: real, order: nat, xs: seq<real>, power: real)
    requires 0.0 <= alph <= 1.0 && 0 < order && forall m :: 0 <= m < |xs| ==> HasPower(xs[m], power)
    ensures Settled(alph, power, |xs|, Trained(lam, alph, order, xs).ad.sig[0])
    decreases |xs|
  {
    hide Trained, Settled, Moves, HasPower, Raised;
    if xs != [] {
      var n := |xs| - 1;
      var t := Trained(lam, alph, order, xs[..n]);
      MovedPower(lam, alph, order, xs, power);
      PowerSettles(lam, alph, order, xs[..n], power);
      Settles(alph, power, n, t.ad.sig[0], Trained(lam, alph, order, xs).ad.sig[0]);
    } else {
      SettledAtRest(lam, alph, order, 0, power);
    }
  }

  lemma MovedCoefficient(lam: real, alph: real, order: nat, xs: seq<real>, i: nat)
    requires 0.0 <= alph <= 1.0 && i < order && xs != []
    ensures Moves(alph, Trained(lam, alph, order, xs[..|xs| - 1]).ad.smooth[i], Quotient(lam, alph, order, xs, i),
                  Trained(lam, alph, order, xs).ad.smooth[i])
  {
    hide Trained, Averages, Adapted, Shifted, Stage, Moves;
    var t := Trained(lam, alph, order, xs[..|xs| - 1]);
    TrainedLast(lam, alph, order, xs);
    AverageLaws(lam, alph, t.ad, t.regs, xs[|xs| - 1], i);
  }

  lemma MovedPower(lam: real, alph: real, order: nat, xs: seq<real>, power: real)
    requires 0.0 <= alph <= 1.0 && 0 < order && xs != [] && HasPower(xs[|xs| - 1], power)
    ensures Moves(alph, Trained(lam, alph, order, xs[..|xs| - 1]).ad.sig[0], power,
      Trained(lam, alph, order, xs).ad.sig[0])
  {
    hide Trained, Averages, Adapted, Shifted, Stage, Moves;
    var t, x := Trained(lam, alph, order, xs[..|xs| - 1]), xs[|xs| - 1];
    TrainedLast(lam, alph, order, xs);
    AverageLaws(lam, alph, t.ad, t.regs, x, 0);
    StageStart(lam, t.regs, Averages(lam, alph, t.ad, t.regs, x).smooth, x);
    MovesToPower(alph, t.ad.sig[0], x, power, Trained(lam, alph, order, xs).ad.sig[0]);
  }

  lemma MovesToPower(alph: real, was: real, x: real, power: real, now: real)
    requires HasPower(x, power) && MovesToProduct(alph, was, x, x, now)
    ensures Moves(alph, was, power, now)
  {
  }

  lemma StageStart(lam: real, s: Registers, ks: seq<real>, x: real)
    requires s.For(|ks|)
    ensures Stage(lam, s, ks, x, 0) == Pair(x, x)
  {
  }

  // ---- A run of the corrector ----

  /** What the post-filter is given for sample k: coefficients and residual of d samples before, or rest. */
  ghost predicate Fed(cols: seq<seq<real>>, res: seq<real>, columns: seq<seq<real>>, residuals: seq<real>, d: nat,
      order: nat) {
    && |cols| == |res| == |columns| == |residuals|
    && forall k :: 0 <= k < |cols| ==>
        cols[k] == (if k < d then Zeros(order) else columns[k - d]) && res[k]
          == (if k < d then 0.0 else residuals[k - d])
  }

  /** A run's residuals. */
  ghost function Residuals(lam: real, alph: real, order: nat, xs: seq<real>): (r: seq<real>)
    requires 0.0 <= alph <= 1.0
    ensures |r| == |xs|
  {
    TrainedRegisters(lam, alph, order, xs);
    PreOutput(lam, AtRest(order), Trained(lam, alph, order, xs).columns, xs)
  }

  lemma ResidualsNext(lam: real, alph: real, order: nat, xs: seq<real>, x: real)
    requires 0.0 <= alph <= 1.0
    ensures var t := Trained(lam, alph, order, xs);
      Residuals(lam, alph, order, xs + [x])
        == Residuals(lam, alph, order, xs) + [Output(lam, t.regs, Adapted(lam, alph, t.ad, t.regs, x), x)]
  {
    var t, t' := Trained(lam, alph, order, xs), Trained(lam, alph, order, xs + [x]);
    TrainedRegisters(lam, alph, order, xs);
    TrainedNext(lam, alph, order, xs, x);
    hide Trained, PreOutput, PreRegisters, Ready, Adapted, Output, Shifted, Averages;
    PreLast(lam, AtRest(order), t'.columns, xs + [x], t.columns, xs, Adapted(lam, alph, t.ad, t.regs, x), x);
  }

  /** The columns and residuals of a run from its start are those of the shorter run. */
  lemma {:induction false} TrainedPrefix(lam: real, alph: real, order: nat, xs: seq<real>, m: nat)
    requires 0.0 <= alph <= 1.0 && m <= |xs|
    ensures Trained(lam, alph, order, xs).columns[..m] == Trained(lam, alph, order, xs[..m]).columns
    ensures Residuals(lam, alph, order, xs)[..m] == Residuals(lam, alph, order, xs[..m])
    decreases |xs|
  {
    hide Trained, Residuals, Adapted, Averages, Shifted, Output;
    if m == |xs| {
      assert xs[..m] == xs;
    } else {
      var n := |xs| - 1;
      assert xs == xs[..n] + [xs[n]] && xs[..n][..m] == xs[..m];
      TrainedPrefix(lam, alph, order, xs[..n], m);
      TrainedNext(lam, alph, order, xs[..n], xs[n]);
      ResidualsNext(lam, alph, order, xs[..n], xs[n]);
    }
  }

  /** One sample of the corrector: through the pre-filter, and what comes back through the post-filter. */
  method CorrectSample(c: Corrector, x: real) returns (y: real)
    requires c.Valid()
    modifies c, c.fb, c.fc, c.frb, c.frc, c.fsig, c.fk, c.fsmooth, c.ftvec, c.fbuff, c.cbf
    ensures c.Valid()
    ensures var ks := Adapted(c.lam, c.alph, old(c.Averaging()), old(c.PreState()), x);
      && c.columns == old(c.columns) + [ks]
      && c.residuals == old(c.residuals) + [Output(c.lam, old(c.PreState()), ks, x)]
      && c.PreState() == Shifted(c.lam, old(c.PreState()), ks, x)
      && c.Averaging() == Averages(c.lam, c.alph, old(c.Averaging()), old(c.PreState()), x)
    ensures var ks, r := DelayedColumn(c.columns, c.size, c.order), At(c.residuals, |c.residuals| - (c.size - 2));
      && y == Solved(c.lam, old(c.PostState()), ks, r)
      && c.PostState() == Shifted(c.lam, old(c.PostState()), ks, y)
  {
    hide Solved, Shifted, Averages, Adapted, Output, DelayedColumn, RingHolds;
    c.PreFilter(x);
    var r := c.DelayedResidual();
    y := c.PostSample(c.lam, r);
  }

  ghost predicate Follows(c: Corrector, t: Trace, residuals: seq<real>)
    requires c.Shape()
    reads c, c.fb, c.fc, c.fsig, c.fk, c.fsmooth
  {
    c.columns == t.columns && c.residuals == residuals && c.Averaging() == t.ad && c.PreState() == t.regs
  }

  /** The post-filter has given ys for what it was fed. */
  ghost predicate Gave(lam: real, order: nat, cols: seq<seq<real>>, res: seq<real>, ys: seq<real>, regs: Registers) {
    && Ready(AtRest(order), cols, res)
    && ys == PostOutput(lam, AtRest(order), cols, res) && regs == PostRegisters(lam, AtRest(order), cols, res)
  }

  /** The corrector has run over xs and given ys, with cols and res fed to its post-filter. */
  ghost predicate Ran(c: Corrector, xs: seq<real>, ys: seq<real>, cols: seq<seq<real>>, res: seq<real>)
    requires c.Valid()
    reads c, c.fb, c.fc, c.fsig, c.fk, c.fsmooth, c.frb, c.frc, c.fbuff, c.cbf
  {
    && Follows(c, Trained(c.lam, c.alph, c.order, xs), Residuals(c.lam, c.alph, c.order, xs))
    && Fed(cols, res, c.columns, c.residuals, c.size - 3, c.order)
    && Gave(c.lam, c.order, cols, res, ys, c.PostState())
  }

  lemma FedNext(cols: seq<seq<real>>, res: seq<real>, columns: seq<seq<real>>, residuals: seq<real>, ks: seq<real>,
      r: real, size: nat, order: nat)
    requires size >= 3 && Fed(cols, res, columns, residuals, size - 3, order)
    requires forall t :: 0 <= t < |columns| ==> |columns[t]| == order
    requires |ks| == order
    ensures Fed(cols + [DelayedColumn(columns + [ks], size, order)],
      res + [At(residuals + [r], |residuals| + 1 - (size - 2))],
                columns + [ks], residuals + [r], size - 3, order)
  {
  }

  lemma GaveNext(lam: real, order: nat, cols: seq<seq<real>>, res: seq<real>, ys: seq<real>, regs: Registers,
      ks: seq<real>, r: real)
    requires Gave(lam, order, cols, res, ys, regs) && |ks| == order && regs.For(order)
    ensures var y := Solved(lam, regs, ks, r); Gave(lam, order, cols + [ks], res + [r], ys + [y],
      Shifted(lam, regs, ks, y))
  {
    hide PostOutput, PostRegisters, Solved, Shifted, Ready;
    PostLast(lam, AtRest(order), cols + [ks], res + [r], cols, res, ks, r);
  }

  /** One sample more of a run. */
  method RunSample(c: Corrector, x: real, ghost xs: seq<real>, ghost ys: seq<real>, ghost cols: seq<seq<real>>,
      ghost res: seq<real>)
    returns (y: real, ghost ks: seq<real>, ghost r: real)
    requires c.Valid() && Ran(c, xs, ys, cols, res)
    modifies c, c.fb, c.fc, c.frb, c.frc, c.fsig, c.fk, c.fsmooth, c.ftvec, c.fbuff, c.cbf
    ensures c.Valid() && Ran(c, xs + [x], ys + [y], cols + [ks], res + [r])
  {
    hide Trained, Residuals, Fed, Gave, Solved, Shifted, Averages, Adapted, Output, RingHolds;
    ghost var before, t := c.PostState(), Trained(c.lam, c.alph, c.order, xs);
    ghost var columns, residuals := c.columns, c.residuals;
    y := CorrectSample(c, x);
    TrainedNext(c.lam, c.alph, c.order, xs, x);
    ResidualsNext(c.lam, c.alph, c.order, xs, x);
    ghost var k := Adapted(c.lam, c.alph, t.ad, t.regs, x);
    FedNext(cols, res, columns, residuals, k, Output(c.lam, t.regs, k, x), c.size, c.order);
    ks, r := DelayedColumn(c.columns, c.size, c.order), At(c.residuals, |c.residuals| - (c.size - 2));
    GaveNext(c.lam, c.order, cols, res, ys, before, ks, r);
  }

  /**
   A run of the corrector with nothing between its filters. The input comes back, as late as the ring is long less
   three, if and only if every sample that has come through met a gain that is not zero, or was zero.
   */
  method Correct(order: nat, size: nat, lam: real, alph: real, xs: seq<real>) returns (ys: seq<real>)
    requires size >= 3 && 0.0 <= alph <= 1.0
    ensures |ys| == |xs| && (ys == (Zeros(size - 3) + xs)[..|xs|] <==> ComesThrough(lam, alph, order, size - 3, xs))
  {
    hide *;
    var c := AtRestCorrector(order, size, lam, alph);
    ys := [];
    ghost var cols, res := [], [];
    for i := 0 to |xs|
      invariant c.Valid() && c.order == order && c.size == size && c.lam == lam && c.alph == alph
      invariant fresh(c) && fresh(c.fb) && fresh(c.fc) && fresh(c.frb) && fresh(c.frc) && fresh(c.fsig) && fresh(c.fk)
      invariant fresh(c.fsmooth) && fresh(c.ftvec) && fresh(c.fbuff) && fresh(c.cbf)
      invariant Ran(c, xs[..i], ys, cols, res)
    {
      ghost var ks, r;
      var y;
      y, ks, r := RunSample(c, xs[i], xs[..i], ys, cols, res);
      assert xs[..i + 1] == xs[..i] + [xs[i]];
      ys, cols, res := ys + [y], cols + [ks], res + [r];
    }
    assert xs[..|xs|] == xs;
    RunRoundTrip(c, xs, ys, cols, res);
  }

  method AtRestCorrector(order: nat, size: nat, lam: real, alph: real) returns (c: Corrector)
    requires size >= 3 && 0.0 <= alph <= 1.0
    ensures c.Valid() && c.order == order && c.size == size && c.lam == lam && c.alph == alph && Ran(c, [], [], [], [])
    ensures fresh(c) && fresh(c.fb) && fresh(c.fc) && fresh(c.frb) && fresh(c.frc) && fresh(c.fsig) && fresh(c.fk)
    ensures fresh(c.fsmooth) && fresh(c.ftvec) && fresh(c.fbuff) && fresh(c.cbf)
  {
    hide Ran, RingHolds;
    c := new Corrector(order, size, lam, alph);
    RanNothing(c);
  }

  lemma RanNothing(c: Corrector)
    requires c.Valid() && c.columns == [] && c.residuals == [] && c.PreState() == c.PostState() == AtRest(c.order)
    requires c.Averaging() == Adaptation(Zeros(c.order), Zeros(c.order), Zeros(c.order))
    ensures Ran(c, [], [], [], [])
  {
  }

  /** How many of n samples come through a delay of d samples. */
  function ThroughCount(n: nat, d: nat): (m: nat)
    ensures m <= n
  {
    if n < d then 0 else n - d
  }

  /** Every sample that came through met a gain that is not zero, or was zero. */
  ghost predicate ComesThrough(lam: real, alph: real, order: nat, d: nat, xs: seq<real>)
    requires 0.0 <= alph <= 1.0
  {
    var through := xs[..ThroughCount(|xs|, d)];
    Recoverable(lam, Trained(lam, alph, order, through).columns, through)
  }

  lemma RunRoundTrip(c: Corrector, xs: seq<real>, ys: seq<real>, cols: seq<seq<real>>, res: seq<real>)
    requires c.Valid() && Ran(c, xs, ys, cols, res)
    ensures |ys| == |xs|
    ensures ys == (Zeros(c.size - 3) + xs)[..|xs|] <==> ComesThrough(c.lam, c.alph, c.order, c.size - 3, xs)
  {
    hide Trained, Residuals, ComesThrough, PostOutput, PostRegisters, Zeros;
    FedRoundTrip(c.lam, c.alph, c.order, xs, c.size - 3, cols, res, ys);
  }

  /** What was fed to the post-filter is the delayed run of what came through. */
  lemma FedIs(lam: real, alph: real, order: nat, xs: seq<real>, d: nat, cols: seq<seq<real>>, res: seq<real>)
    requires 0.0 <= alph <= 1.0
    requires Fed(cols, res, Trained(lam, alph, order, xs).columns, Residuals(lam, alph, order, xs), d, order)
    ensures var m := ThroughCount(|xs|, d); var t := Trained(lam, alph, order, xs[..m]);
      && cols == ZeroColumns(|xs| - m, order) + t.columns
      && res == Zeros(|xs| - m) + Residuals(lam, alph, order, xs[..m])
      && (Zeros(d) + xs)[..|xs|] == Zeros(|xs| - m) + xs[..m]
  {
    hide Trained, Residuals;
    TrainedPrefix(lam, alph, order, xs, ThroughCount(|xs|, d));
  }

  lemma FedRoundTrip(lam: real, alph: real, order: nat, xs: seq<real>, d: nat, cols: seq<seq<real>>, res: seq<real>,
      ys: seq<real>)
    requires 0.0 <= alph <= 1.0 && Ready(AtRest(order), cols, res) && ys == PostOutput(lam, AtRest(order), cols, res)
    requires Fed(cols, res, Trained(lam, alph, order, xs).columns, Residuals(lam, alph, order, xs), d, order)
    ensures ys == (Zeros(d) + xs)[..|xs|] <==> ComesThrough(lam, alph, order, d, xs)
  {
    var m := ThroughCount(|xs|, d);
    FedIs(lam, alph, order, xs, d, cols, res);
    TrainedRegisters(lam, alph, order, xs[..m]);
    ResidualsAre(lam, alph, order, xs[..m]);
    DelayedRoundTrip(lam, order, |xs| - m, Trained(lam, alph, order, xs[..m]).columns, xs[..m]);
    hide Trained, Residuals, PostOutput, PreOutput, Recoverable, Fed, Ready;
  }

  lemma ResidualsAre(lam: real, alph: real, order: nat, xs: seq<real>)
    requires 0.0 <= alph <= 1.0
    ensures var t := Trained(lam, alph, order, xs);
      Ready(AtRest(order), t.columns, xs) && Residuals(lam, alph, order, xs)
        == PreOutput(lam, AtRest(order), t.columns, xs)
  {
    TrainedRegisters(lam, alph, order, xs);
  }

  // ---- Runs that adaptation loses ----

  /** A run that does not come back from the coefficients that the pre-filter adapts to it. */
  ghost predicate Lost(lam: real, alph: real, order: nat, xs: seq<real>)
    requires 0.0 <= alph <= 1.0
  {
    var kss := Trained(lam, alph, order, xs).columns;
    && Ready(AtRest(order), kss, xs)
    && PostOutput(lam, AtRest(order), kss, PreOutput(lam, AtRest(order), kss, xs)) != xs
  }

  /** A run is lost exactly when some sample is not recoverable with its adapted coefficients. */
  lemma LostRun(lam: real, alph: real, order: nat, xs: seq<real>)
    requires 0.0 <= alph <= 1.0
    ensures Lost(lam, alph, order, xs) <==> !Recoverable(lam, Trained(lam, alph, order, xs).columns, xs)
  {
    TrainedRegisters(lam, alph, order, xs);
    PostUndoesPre(lam, AtRest(order), Trained(lam, alph, order, xs).columns, xs);
    hide Trained, PostOutput, PreOutput, Recoverable;
  }

  /** The coefficients that one stage adapts from rest to a sample s and a sample x after it. */
  function FirstCoefficient(lam: real, alph: real, s: real): real
    requires 0.0 <= alph <= 1.0
  {
    Coefficient(alph, 0.0, 0.0, 0.0, s, FirstPassed(lam, s))
  }

  /** What the all-pass section makes of the two samples. */
  function FirstPassed(lam: real, s: real): real { s * lam }
  function SecondPassed(lam: real, s: real, x: real): real { (x - s * lam) * lam + s }

  function SecondCoefficient(lam: real, alph: real, s: real, x: real): real
    requires 0.0 <= alph <= 1.0
  {
    Coefficient(alph, Power(alph, 0.0, s), Crossed(alph, 0.0, s, FirstPassed(lam, s)), FirstCoefficient(lam, alph, s),
      x,
      SecondPassed(lam, s, x))
  }

  /** One stage, one sample. */
  lemma OneStage(lam: real, alph: real, ad: Adaptation, regs: Registers, x: real, d: real)
    requires 0.0 <= alph <= 1.0 && ad.For(1) && regs.For(1) && d == (x - regs.c[0]) * lam + regs.b[0]
    ensures var k := Coefficient(alph, ad.sig[0], ad.fk[0], ad.smooth[0], x, d);
      && Adapted(lam, alph, ad, regs, x) == [k]
      && Averages(lam, alph, ad, regs, x) == Adaptation([Power(alph, ad.sig[0], x)], [Crossed(alph, ad.fk[0], x, d)],
          [k])
      && Shifted(lam, regs, [k], x) == Registers([x], [d])
  {
    hide Coefficient, Power, Crossed;
    var k := Coefficient(alph, ad.sig[0], ad.fk[0], ad.smooth[0], x, d);
    assert AllPass(lam, regs, x, 0) == d;
    assert Walk(lam, alph, ad, regs, x, 0) == (Pair(x, x), []);
    assert Adapted(lam, alph, ad, regs, x) == [k];
    assert Stage(lam, regs, [k], x, 0) == Pair(x, x);
  }

  lemma OneTrained(lam: real, alph: real, s: real)
    requires 0.0 <= alph <= 1.0
    ensures var d, k := FirstPassed(lam, s), FirstCoefficient(lam, alph, s);
      Trained(lam, alph, 1, [s])
        == Trace(Adaptation([Power(alph, 0.0, s)], [Crossed(alph, 0.0, s, d)], [k]), Registers([s], [d]), [[k]])
  {
    hide Coefficient, Power, Crossed, Averages, Shifted, Adapted;
    var t := Trained(lam, alph, 1, []);
    assert t.ad.sig[0] == t.ad.fk[0] == t.ad.smooth[0] == t.regs.b[0] == t.regs.c[0] == 0.0;
    OneStage(lam, alph, t.ad, t.regs, s, FirstPassed(lam, s));
    TrainedNext(lam, alph, 1, [], s);
    assert [] + [s] == [s];
  }

  lemma TwoTrained(lam: real, alph: real, s: real, x: real)
    requires 0.0 <= alph <= 1.0
    ensures Trained(lam, alph, 1, [s, x]).columns == [[FirstCoefficient(lam, alph, s)],
      [SecondCoefficient(lam, alph, s, x)]]
  {
    hide Coefficient, Power, Crossed, Averages, Shifted, Adapted, FirstCoefficient;
    var t := Trained(lam, alph, 1, [s]);
    OneTrained(lam, alph, s);
    OneStage(lam, alph, t.ad, t.regs, x, SecondPassed(lam, s, x));
    hide FirstPassed, SecondPassed;
    assert Adapted(lam, alph, t.ad, t.regs, x) == [SecondCoefficient(lam, alph, s, x)];
    TrainedNext(lam, alph, 1, [s], x);
    assert [s] + [x] == [s, x];
    assert Trained(lam, alph, 1, [s, x]).columns == t.columns + [[SecondCoefficient(lam, alph, s, x)]];
  }

  lemma OneStageGain(lam: real, k: real)
    ensures Gain(lam, [k]) == 1.0 - k * lam
  {
    assert Slope(lam, [k], 0) == Pair(1.0, 1.0);
  }

  /**
   From rest, with one stage, two samples are lost if and only if a sample that is not zero meets a coefficient that
   is the warp's inverse.
   */
  lemma TwoSamples(lam: real, alph: real, s: real, x: real)
    requires 0.0 <= alph <= 1.0
    ensures Lost(lam, alph, 1, [s, x]) <==>
      (FirstCoefficient(lam, alph, s) * lam == 1.0 && s != 0.0) ||
        (SecondCoefficient(lam, alph, s, x) * lam == 1.0 && x != 0.0)
  {
    hide *;
    var k, l := FirstCoefficient(lam, alph, s), SecondCoefficient(lam, alph, s, x);
    TwoTrained(lam, alph, s, x);
    LostRun(lam, alph, 1, [s, x]);
    TwoRecoverable(lam, k, l, s, x, k * lam, l * lam);
  }

  lemma TwoRecoverable(lam: real, k: real, l: real, s: real, x: real, kl: real, ll: real)
    requires kl == k * lam && ll == l * lam
    ensures Recoverable(lam, [[k], [l]], [s, x]) <==> (kl != 1.0 || s == 0.0) && (ll != 1.0 || x == 0.0)
  {
    OneStageGain(lam, k);
    OneStageGain(lam, l);
    hide Gain;
    var kss, xs := [[k], [l]], [s, x];
    assert kss[0] == [k] && kss[1] == [l] && xs[0] == s && xs[1] == x;
  }

  /**
   For every warp there is a run that is lost, and for any last sample, when the averages keep nothing of their old
   values.
   */
  lemma EveryWarpLoses(lam: real, x: real)
    requires -1.0 < lam < 1.0 && lam != 0.0 && x != 0.0
    ensures exists s :: Lost(lam, 0.0, 1, [s, x])
  {
    var u := 1.0 - lam * lam;
    BelowUnit(lam);
    NonZeroProduct(lam, x);
    NonZeroProduct(lam * x, u);
    var s := (x * x * u + 0.000001) / (lam * x * u);
    assert s * (lam * x * u) == x * x * u + 0.000001;
    SquareNonnegative(x);
    InverseReached(lam, x, s, u);
    LostAtInverse(lam, 0.0, s, x);
    assert Lost(lam, 0.0, 1, [s, x]);
  }

  lemma LostAtInverse(lam: real, alph: real, s: real, x: real)
    requires 0.0 <= alph <= 1.0 && SecondCoefficient(lam, alph, s, x) * lam == 1.0 && x != 0.0
    ensures Lost(lam, alph, 1, [s, x])
  {
    hide SecondCoefficient, FirstCoefficient, Trained, PostOutput, PreOutput;
    TwoSamples(lam, alph, s, x);
  }

  lemma BelowUnit(lam: real)
    requires -1.0 < lam < 1.0
    ensures 1.0 - lam * lam > 0.0
  {
    PositiveProduct(1.0 - lam, 1.0 + lam);
  }

  lemma NonZeroProduct(a: real, b: real)
    requires a != 0.0 && b != 0.0
    ensures a * b != 0.0
  {
  }

  lemma InverseReached(lam: real, x: real, s: real, u: real)
    requires u == 1.0 - lam * lam && s * (lam * x * u) == x * x * u + 0.000001 && x * x >= 0.0
    ensures SecondCoefficient(lam, 0.0, s, x) * lam == 1.0
  {
    var d := SecondPassed(lam, s, x);
    var power := x * x + 0.000001;
    assert Power(0.0, Power(0.0, 0.0, s), x) == x * x;
    assert SecondCoefficient(lam, 0.0, s, x) == x * d / power;
    Reached(lam, x, s, u, d);
    Divided(x * d, power, lam);
  }

  lemma Reached(lam: real, x: real, s: real, u: real, d: real)
    requires u == 1.0 - lam * lam && s * (lam * x * u) == x * x * u + 0.000001 && d == (x - s * lam) * lam + s
    ensures x * d * lam == x * x + 0.000001
  {
    assert d == x * lam + s * u;
    assert x * (x * lam + s * u) * lam == x * x * (lam * lam) + s * (lam * x * u);
    assert x * x * u == x * x - x * x * (lam * lam);
  }

  lemma Divided(a: real, p: real, lam: real)
    requires p > 0.0 && a * lam == p
    ensures a / p * lam == 1.0
  {
    var q := a / p;
    assert q * p == a;
    assert q * lam * p == a * lam;
    Cancel(p, q * lam, 1.0);
  }

  /**
   With averages that keep a tenth, the gain changes its sign between two last samples, so that between them it is
   zero for one.
   */
  lemma GainChangesSign()
    ensures Gain(-0.8, Trained(-0.8, 0.1, 1, [1.0, -0.3]).columns[1]) < 0.0
    ensures Gain(-0.8, Trained(-0.8, 0.1, 1, [1.0, -1.0]).columns[1]) > 0.0
  {
    TwoTrained(-0.8, 0.1, 1.0, -0.3);
    TwoTrained(-0.8, 0.1, 1.0, -1.0);
    OneStageGain(-0.8, SecondCoefficient(-0.8, 0.1, 1.0, -0.3));
    OneStageGain(-0.8, SecondCoefficient(-0.8, 0.1, 1.0, -1.0));
  }
}
