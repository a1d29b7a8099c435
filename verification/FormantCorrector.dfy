/** The formant corrector's sample loop: adaptive pre-filter, ring of coefficient columns, three-pass post-filter. */
module FormantCorrector {
  import opened Samples
  import Division
  import RecordRing
  import opened WarpedLattice
  import opened FormantFilters

  // ---- Adaptation ----

  /** Running averages, one of each for every stage: signal power, cross power, and the smoothed coefficient. */
  datatype Adaptation = Adaptation(sig: seq<real>, fk: seq<real>, smooth: seq<real>) {
    ghost predicate For(order: nat) {
      |sig| == |fk| == |smooth| == order && forall i :: 0 <= i < order ==> sig[i] >= 0.0
    }
  }

  /** An exponential average that keeps the share alph of its old value. */
  function Averaged(alph: real, old_: real, now: real): real {
    now * (1.0 - alph) + old_ * alph
  }

  function Power(alph: real, sig: real, a: real): (r: real)
    requires 0.0 <= alph <= 1.0 && sig >= 0.0
    ensures r >= 0.0
  {
    NonNegativeProduct(sig, alph);
    SquareNonnegative(a);
    NonNegativeProduct(a * a, 1.0 - alph);
    Averaged(alph, sig, a * a)
  }

  lemma SquareNonnegative(a: real)
    ensures a * a >= 0.0
  {
  }

  function Crossed(alph: real, fk: real, a: real, c: real): real {
    Averaged(alph, fk, a * c)
  }

  function Coefficient(alph: real, sig: real, fk: real, smooth: real, a: real, c: real): real
    requires 0.0 <= alph <= 1.0 && sig >= 0.0
  {
    Averaged(alph, smooth, Crossed(alph, fk, a, c) / (Power(alph, sig, a) + 0.000001))
  }

  /** The signals after i stages, and the coefficients adapted on the way. */
  ghost function Walk(lam: real, alph: real, ad: Adaptation, s: Registers, x: real, i: nat): (r: (Pair, seq<real>))
    requires 0.0 <= alph <= 1.0 && i <= |ad.sig| && ad.For(|ad.sig|) && s.For(|ad.sig|)
    ensures |r.1| == i
  {
    if i == 0 then (Pair(x, x), [])
    else
      var (p, ks) := Walk(lam, alph, ad, s, x, i - 1);
      var c := AllPass(lam, s, p.b, i - 1);
      var k := Coefficient(alph, ad.sig[i - 1], ad.fk[i - 1], ad.smooth[i - 1], p.a, c);
      (Joined(p, k, c), ks + [k])
  }

  /** The coefficients that the pre-filter adapts for a sample. */
  ghost function Adapted(lam: real, alph: real, ad: Adaptation, s: Registers, x: real): (r: seq<real>)
    requires 0.0 <= alph <= 1.0 && ad.For(|ad.sig|) && s.For(|ad.sig|)
    ensures |r| == |ad.sig|
  {
    Walk(lam, alph, ad, s, x, |ad.sig|).1
  }

  lemma {:induction false} WalkPrefix(lam: real, alph: real, ad: Adaptation, s: Registers, x: real, i: nat, n: nat)
    requires 0.0 <= alph <= 1.0 && i <= n <= |ad.sig| && ad.For(|ad.sig|) && s.For(|ad.sig|)
    ensures Walk(lam, alph, ad, s, x, i).1 == Walk(lam, alph, ad, s, x, n).1[..i]
    decreases n - i
  {
    if i < n {
      hide Coefficient, AllPass, Joined;
      WalkPrefix(lam, alph, ad, s, x, i + 1, n);
      assert Walk(lam, alph, ad, s, x, i + 1).1[..i] == Walk(lam, alph, ad, s, x, i).1;
    }
  }

  /** Adapting while walking is the same as walking with the adapted coefficients. */
  lemma {:induction false} WalkIsStage(lam: real, alph: real, ad: Adaptation, s: Registers, x: real, i: nat)
    requires 0.0 <= alph <= 1.0 && i <= |ad.sig| && ad.For(|ad.sig|) && s.For(|ad.sig|)
    ensures Walk(lam, alph, ad, s, x, i).0 == Stage(lam, s, Adapted(lam, alph, ad, s, x), x, i)
  {
    if i > 0 {
      hide Coefficient, AllPass, Joined;
      WalkIsStage(lam, alph, ad, s, x, i - 1);
      WalkPrefix(lam, alph, ad, s, x, i, |ad.sig|);
      assert Walk(lam, alph, ad, s, x, i).1[i - 1] == Adapted(lam, alph, ad, s, x)[i - 1];
    }
  }

  /** The coefficient that stage i adapts. */
  lemma AdaptedAt(lam: real, alph: real, ad: Adaptation, s: Registers, x: real, i: nat)
    requires 0.0 <= alph <= 1.0 && i < |ad.sig| && ad.For(|ad.sig|) && s.For(|ad.sig|)
    ensures var ks := Adapted(lam, alph, ad, s, x);
      var p := Stage(lam, s, ks, x, i);
      ks[i] == Coefficient(alph, ad.sig[i], ad.fk[i], ad.smooth[i], p.a, AllPass(lam, s, p.b, i))
  {
    hide Coefficient, AllPass, Joined;
    WalkIsStage(lam, alph, ad, s, x, i);
    WalkPrefix(lam, alph, ad, s, x, i + 1, |ad.sig|);
    assert Walk(lam, alph, ad, s, x, i + 1).1[i] == Adapted(lam, alph, ad, s, x)[i];
  }

  /** The averages after a sample. */
  ghost function Averages(lam: real, alph: real, ad: Adaptation, s: Registers, x: real): (r: Adaptation)
    requires 0.0 <= alph <= 1.0 && ad.For(|ad.sig|) && s.For(|ad.sig|)
    ensures r.For(|ad.sig|)
  {
    var ks, n := Adapted(lam, alph, ad, s, x), |ad.sig|;
    Adaptation(
      seq(n, i requires 0 <= i < n => Power(alph, ad.sig[i], Stage(lam, s, ks, x, i).a)),
      seq(n, i requires 0 <= i < n =>
        Crossed(alph, ad.fk[i], Stage(lam, s, ks, x, i).a, AllPass(lam, s, Stage(lam, s, ks, x, i).b, i))),
      ks)
  }

  /** The next stage of the pre-filter, in terms of the signals entering stage i. */
  lemma NextStage(lam: real, alph: real, ad: Adaptation, s: Registers, x: real, i: nat, p: Pair, c: real, ks: seq<real>)
    requires 0.0 <= alph <= 1.0 && i < |ad.sig| && ad.For(|ad.sig|) && s.For(|ad.sig|)
    requires ks == Adapted(lam, alph, ad, s, x) && p == Stage(lam, s, ks, x, i) && c == AllPass(lam, s, p.b, i)
    ensures ks[i] == Coefficient(alph, ad.sig[i], ad.fk[i], ad.smooth[i], p.a, c)
    ensures Stage(lam, s, ks, x, i + 1) == Pair(p.a - ks[i] * c, c - ks[i] * p.a)
  {
    AdaptedAt(lam, alph, ad, s, x, i);
    hide Coefficient, AllPass, Power, Averaged, Walk, Adapted, Joined;
    assert Stage(lam, s, ks, x, i + 1) == Joined(p, ks[i], c);
    JoinedIs(p, ks[i], c);
  }

  /** What stage i leaves behind in the registers and the averages. */
  lemma StoredAt(lam: real, alph: real, ad: Adaptation, s: Registers, x: real, i: nat, p: Pair, c: real, ks: seq<real>)
    requires 0.0 <= alph <= 1.0 && i < |ad.sig| && ad.For(|ad.sig|) && s.For(|ad.sig|)
    requires ks == Adapted(lam, alph, ad, s, x) && p == Stage(lam, s, ks, x, i) && c == AllPass(lam, s, p.b, i)
    ensures Shifted(lam, s, ks, x).b[i] == p.b && Shifted(lam, s, ks, x).c[i] == c
    ensures Averages(lam, alph, ad, s, x).sig[i] == Power(alph, ad.sig[i], p.a)
    ensures Averages(lam, alph, ad, s, x).fk[i] == Crossed(alph, ad.fk[i], p.a, c)
  {
    hide Coefficient, Power, Walk, Adapted, Stage;
  }

  lemma SmoothIsAdapted(lam: real, alph: real, ad: Adaptation, s: Registers, x: real)
    requires 0.0 <= alph <= 1.0 && ad.For(|ad.sig|) && s.For(|ad.sig|)
    ensures Averages(lam, alph, ad, s, x).smooth == Adapted(lam, alph, ad, s, x)
  {
  }

  /** From was to now is the share 1 - alph of the way to goal. */
  predicate Moves(alph: real, was: real, goal: real, now: real) {
    now - was == (1.0 - alph) * (goal - was)
  }

  predicate MovesToProduct(alph: real, was: real, x: real, y: real, now: real) {
    Moves(alph, was, x * y, now)
  }

  predicate MovesToQuotient(alph: real, was: real, cross: real, power: real, now: real)
    requires power >= 0.0
  {
    Moves(alph, was, cross / (power + 0.000001), now)
  }

  lemma AverageMoves(alph: real, was: real, goal: real)
    ensures Moves(alph, was, goal, Averaged(alph, was, goal))
  {
  }

  /**
   What a sample does to stage i: power and cross power move the share 1 - alph of the way to those of the signals
   that meet there, and the coefficient that is stored moves the same share of the way to the quotient of the two.
   */
  lemma AverageLaws(lam: real, alph: real, ad: Adaptation, s: Registers, x: real, i: nat)
    requires 0.0 <= alph <= 1.0 && i < |ad.sig| && ad.For(|ad.sig|) && s.For(|ad.sig|)
    ensures var t := Averages(lam, alph, ad, s, x);
      var a, c := Stage(lam, s, t.smooth, x, i).a, Shifted(lam, s, t.smooth, x).c[i];
      && t.smooth == Adapted(lam, alph, ad, s, x)
      && MovesToProduct(alph, ad.sig[i], a, a, t.sig[i])
      && MovesToProduct(alph, ad.fk[i], a, c, t.fk[i])
      && MovesToQuotient(alph, ad.smooth[i], t.fk[i], t.sig[i], t.smooth[i])
  {
    hide Averages, Adapted, Stage, AllPass, Shifted, Walk, Power, Crossed, Coefficient, Averaged;
    hide MovesToProduct, MovesToQuotient;
    var ks := Adapted(lam, alph, ad, s, x);
    var p := Stage(lam, s, ks, x, i);
    var c := AllPass(lam, s, p.b, i);
    SmoothIsAdapted(lam, alph, ad, s, x);
    StoredAt(lam, alph, ad, s, x, i, p, c, ks);
    AdaptedAt(lam, alph, ad, s, x, i);
    CellMoves(alph, ad.sig[i], ad.fk[i], ad.smooth[i], p.a, c);
  }

  /** The law of the stored coefficient, written out. */
  lemma CoefficientLaw(lam: real, alph: real, ad: Adaptation, s: Registers, x: real, i: nat)
    requires 0.0 <= alph <= 1.0 && i < |ad.sig| && ad.For(|ad.sig|) && s.For(|ad.sig|)
    ensures var t := Averages(lam, alph, ad, s, x);
      t.smooth[i] - ad.smooth[i] == (1.0 - alph) * (t.fk[i] / (t.sig[i] + 0.000001) - ad.smooth[i])
  {
    AverageLaws(lam, alph, ad, s, x, i);
    hide Averages, Adapted, Stage, Shifted, MovesToProduct;
  }

  /** The averages of one stage. */
  lemma CellMoves(alph: real, sig: real, fk: real, smooth: real, a: real, c: real)
    requires 0.0 <= alph <= 1.0 && sig >= 0.0
    ensures MovesToProduct(alph, sig, a, a, Power(alph, sig, a)) &&
      MovesToProduct(alph, fk, a, c, Crossed(alph, fk, a, c))
    ensures MovesToQuotient(alph, smooth, Crossed(alph, fk, a, c), Power(alph, sig, a),
      Coefficient(alph, sig, fk, smooth, a, c))
  {
    hide Moves, Averaged;
    AverageMoves(alph, sig, a * a);
    AverageMoves(alph, fk, a * c);
    AverageMoves(alph, smooth, Crossed(alph, fk, a, c) / (Power(alph, sig, a) + 0.000001));
  }

  // ---- The three passes ----

  ghost function Total(v: seq<real>, n: nat): real
    requires n <= |v|
  {
    if n == 0 then 0.0 else Total(v, n - 1) + v[n - 1]
  }

  lemma {:induction false} TotalPrefix(v: seq<real>, w: seq<real>, n: nat)
    requires n <= |v| && n <= |w| && v[..n] == w[..n]
    ensures Total(v, n) == Total(w, n)
  {
    if n > 0 {
      assert v[..n][..n - 1] == v[..n - 1] && w[..n][..n - 1] == w[..n - 1];
      TotalPrefix(v, w, n - 1);
      assert v[..n][n - 1] == w[..n][n - 1];
    }
  }

  /** The first or second pass: a response of the lattice, the delay registers left alone. */
  method Respond(lam: real, rb: array<real>, rc: array<real>, ks: seq<real>, x: real,
      vec: array<real>) returns (f: real)
    requires rb.Length == rc.Length == vec.Length == |ks| && vec != rb && vec != rc
    modifies vec
    ensures f == Response(lam, Registers(rb[..], rc[..]), ks, x)
  {
    hide AllPass, Joined;
    ghost var s := Registers(rb[..], rc[..]);
    var fa, fb := x, x;
    for i := 0 to |ks|
      invariant Pair(fa, fb) == Stage(lam, s, ks, x, i)
      invariant rb[..] == s.b && rc[..] == s.c
      invariant Total(vec[..], i) == x - fa
    {
      var fc := (fb - rc[i]) * lam + rb[i];
      assert fc == AllPass(lam, s, fb, i) by { AllPassIs(lam, s, fb, i); }
      ghost var before := vec[..];
      ghost var p := Pair(fa, fb);
      fb := fc - ks[i] * fa;
      vec[i] := ks[i] * fc;
      fa := fa - vec[i];
      JoinedIs(p, ks[i], fc);
      TotalPrefix(before, vec[..], i);
    }
    f := 0.0 - fa;
    var j := |ks|;
    while j > 0
      invariant 0 <= j <= |ks|
      invariant f == 0.0 - fa + (x - fa) - Total(vec[..], j)
    {
      j := j - 1;
      f := f + vec[j];
    }
  }

  /** A sequence of which the first i elements were replaced. */
  ghost function Spliced(now: seq<real>, old_: seq<real>, i: nat): (r: seq<real>)
    requires i <= |now| == |old_|
    ensures |r| == |now|
  {
    now[..i] + old_[i..]
  }

  lemma SplicedEnds(now: seq<real>, old_: seq<real>)
    requires |now| == |old_|
    ensures Spliced(now, old_, 0) == old_ && Spliced(now, old_, |now|) == now
  {
  }

  lemma SplicedNext(now: seq<real>, old_: seq<real>, i: nat)
    requires i < |now| == |old_|
    ensures Spliced(now, old_, i)[i] == old_[i]
    ensures Spliced(now, old_, i + 1) == Spliced(now, old_, i)[i := now[i]]
  {
  }

  lemma SameAllPass(lam: real, s: Registers, r: Registers, b: real, i: nat)
    requires i < |s.b| == |s.c| && i < |r.b| == |r.c| && s.b[i] == r.b[i] && s.c[i] == r.c[i]
    ensures AllPass(lam, s, b, i) == AllPass(lam, r, b, i)
  {
  }

  lemma AllPassIs(lam: real, s: Registers, b: real, i: nat)
    requires i < |s.b| == |s.c|
    ensures AllPass(lam, s, b, i) == (b - s.c[i]) * lam + s.b[i]
  {
  }

  lemma StageZero(lam: real, s: Registers, ks: seq<real>, x: real)
    requires s.For(|ks|)
    ensures Stage(lam, s, ks, x, 0) == Pair(x, x)
  {
  }

  lemma JoinedIs(p: Pair, k: real, c: real)
    ensures Joined(p, k, c) == Pair(p.a - k * c, c - k * p.a)
  {
  }

  /** The post-filter: two responses, the solution of the delay-free loop, and the pass that moves the registers. */
  method PostFilter(lam: real, rb: array<real>, rc: array<real>, ks: seq<real>, residual: real,
      vec: array<real>) returns (y: real)
    requires rb.Length == rc.Length == vec.Length == |ks| && vec != rb && vec != rc && rb != rc
    modifies rb, rc, vec
    ensures y == Solved(lam, Registers(old(rb[..]), old(rc[..])), ks, residual)
    ensures Registers(rb[..], rc[..]) == Shifted(lam, Registers(old(rb[..]), old(rc[..])), ks, y)
  {
    hide Stage;
    var f0 := Respond(lam, rb, rc, ks, 0.0, vec);
    var f1 := Respond(lam, rb, rc, ks, 1.0, vec);
    var det := 1.0 - f1 + f0;
    if det != 0.0 {
      y := (2.0 * residual + f0) / det;
    } else {
      y := 0.0;
    }
    Shift(lam, rb, rc, ks, y);
  }

  method Shift(lam: real, rb: array<real>, rc: array<real>, ks: seq<real>, x: real)
    requires rb.Length == rc.Length == |ks| && rb != rc
    modifies rb, rc
    ensures Registers(rb[..], rc[..]) == Shifted(lam, Registers(old(rb[..]), old(rc[..])), ks, x)
  {
    hide AllPass, Joined;
    ghost var s := Registers(rb[..], rc[..]);
    ghost var after := Shifted(lam, s, ks, x);
    var fa, fb := x, x;
    for i := 0 to |ks|
      invariant Pair(fa, fb) == Stage(lam, s, ks, x, i)
      invariant forall j :: 0 <= j < i ==> rb[j] == after.b[j] && rc[j] == after.c[j]
      invariant forall j :: i <= j < |ks| ==> rb[j] == s.b[j] && rc[j] == s.c[j]
    {
      var fc := (fb - rc[i]) * lam + rb[i];
      assert fc == AllPass(lam, s, fb, i) by { AllPassIs(lam, s, fb, i); }
      JoinedIs(Pair(fa, fb), ks[i], fc);
      rc[i] := fc;
      rb[i] := fb;
      fb := fc - ks[i] * fa;
      fa := fa - ks[i] * fc;
    }
  }

  // ---- The pre-filter and the ring ----

  lemma ModDistinct(a: nat, b: nat, n: nat)
    requires 0 < n && a < b < a + n
    ensures a % n != b % n
  {
    if a % n == b % n {
      var d := Division.Apart(b, a, n);
      Division.Multiples(n, d);
    }
  }

  /** The ring holds the last columns written, and zeros where nothing was written yet. */
  ghost predicate RingHolds(ring: seq<seq<real>>, columns: seq<seq<real>>, order: nat)
    requires |ring| > 0
  {
    && (forall t :: 0 <= t < |columns| ==> |columns[t]| == order)
    && (forall t :: 0 <= t < |columns| && |columns| - |ring| <= t ==> ring[t % |ring|] == columns[t])
    && (forall c :: |columns| <= c < |ring| ==> ring[c] == Zeros(order))
  }

  /** The coefficients of the sample that lies size - 3 samples back, which is where the post-filter reads. */
  ghost function DelayedColumn(columns: seq<seq<real>>, size: nat, order: nat): (r: seq<real>)
    requires size >= 3 && forall t :: 0 <= t < |columns| ==> |columns[t]| == order
    ensures |r| == order
  {
    if |columns| >= size - 2 then columns[|columns| - (size - 2)] else Zeros(order)
  }

  /** Writing a column at the write index keeps the last columns in the ring. */
  lemma WriteColumn(ring: seq<seq<real>>, columns: seq<seq<real>>, ks: seq<real>, order: nat)
    requires |ring| > 0 && RingHolds(ring, columns, order) && |ks| == order
    ensures RingHolds(ring[|columns| % |ring| := ks], columns + [ks], order)
  {
    var n, size := |columns|, |ring|;
    var ring', columns' := ring[n % size := ks], columns + [ks];
    forall t | 0 <= t < |columns'| && |columns'| - size <= t
      ensures ring'[t % size] == columns'[t]
    {
      if t < n {
        ModDistinct(t, n, size);
      }
    }
    forall c | |columns'| <= c < size
      ensures ring'[c] == Zeros(order)
    {
      Division.SmallRemainder(n, size);
    }
  }

  /** The column two past the write index is the one written size - 3 samples before the last. */
  lemma ReadColumn(ring: seq<seq<real>>, columns: seq<seq<real>>, order: nat)
    requires |ring| >= 3 && RingHolds(ring, columns, order)
    ensures ring[(|columns| % |ring| + 2) % |ring|] == DelayedColumn(columns, |ring|, order)
  {
    var n, size := |columns|, |ring|;
    if n >= size - 2 {
      SameColumn(n + 2 - size, n, size);
      assert ring[(n + 2 - size) % size] == columns[n + 2 - size];
    } else {
      Division.SmallRemainder(n, size);
      Division.SmallRemainder(n + 2, size);
    }
  }

  class Corrector {
    const order: nat
    const size: nat            // columns of the ring
    const lam: real            // warp of the pre-filter
    const alph: real           // share that the averages keep
    const fb: array<real>
    const fc: array<real>
    const frb: array<real>
    const frc: array<real>
    const fsig: array<real>
    const fk: array<real>
    const fsmooth: array<real>
    const ftvec: array<real>
    const fbuff: array2<real>
    const cbf: array<real>
    var cbiwr: nat
    ghost var columns: seq<seq<real>>   // the coefficients of every sample so far
    ghost var residuals: seq<real>      // the residual of every sample so far

    /** A corrector at rest, with an empty ring. */
    constructor (order: nat, size: nat, lam: real, alph: real)
      requires size >= 3 && 0.0 <= alph <= 1.0
      ensures Valid() && this.order == order && this.size == size && this.lam == lam && this.alph == alph
      ensures columns == [] && residuals == [] && PreState() == PostState() == AtRest(order)
      ensures Averaging() == Adaptation(Zeros(order), Zeros(order), Zeros(order))
      ensures fresh(fb) && fresh(fc) && fresh(frb) && fresh(frc) && fresh(fsig) && fresh(fk) && fresh(fsmooth) &&
        fresh(ftvec)
      ensures fresh(fbuff) && fresh(cbf)
    {
      this.order := order;
      this.size := size;
      this.lam := lam;
      this.alph := alph;
      fb, fc := new real[order](_ => 0.0), new real[order](_ => 0.0);
      frb, frc := new real[order](_ => 0.0), new real[order](_ => 0.0);
      fsig, fk := new real[order](_ => 0.0), new real[order](_ => 0.0);
      fsmooth, ftvec := new real[order](_ => 0.0), new real[order](_ => 0.0);
      fbuff := new real[order, size]((_, _) => 0.0);
      cbf := new real[size](_ => 0.0);
      cbiwr := 0;
      columns := [];
      residuals := [];
      new;
      AtRestIsValid();
    }

    lemma AtRestIsValid()
      requires Arrays() && size >= 3 && 0.0 <= alph <= 1.0 && columns == [] && residuals == [] && cbiwr == 0
      requires forall i :: 0 <= i < order ==> fb[i] == fc[i] == frb[i] == frc[i] == 0.0
      requires forall i :: 0 <= i < order ==> fsig[i] == fk[i] == fsmooth[i] == 0.0
      requires forall c :: 0 <= c < size ==> cbf[c] == 0.0
      requires forall i, c :: 0 <= i < order && 0 <= c < size ==> fbuff[i, c] == 0.0
      ensures Valid() && PreState() == PostState() == AtRest(order)
      ensures Averaging() == Adaptation(Zeros(order), Zeros(order), Zeros(order))
    {
      RecordRing.RingStart(cbf[..]);
      assert Averaging() == Adaptation(Zeros(order), Zeros(order), Zeros(order));
      Division.SmallRemainder(0, size);
      assert forall c :: 0 <= c < size ==> Ring()[c] == Zeros(order);
      assert PreState() == AtRest(order) && PostState() == AtRest(order);
    }

    /** The arrays have their lengths, and no two are the same. */
    ghost predicate Arrays()
    {
      && fb.Length == fc.Length == frb.Length == frc.Length == fsig.Length == fk.Length == fsmooth.Length
          == ftvec.Length == order
      && fbuff.Length0 == order && fbuff.Length1 == cbf.Length == size
      && fb != fc && fb != frb && fb != frc && fb != fsig && fb != fk && fb != fsmooth && fb != ftvec && fb != cbf
      && fc != frb && fc != frc && fc != fsig && fc != fk && fc != fsmooth && fc != ftvec && fc != cbf
      && frb != frc && frb != fsig && frb != fk && frb != fsmooth && frb != ftvec && frb != cbf
      && frc != fsig && frc != fk && frc != fsmooth && frc != ftvec && frc != cbf
      && fsig != fk && fsig != fsmooth && fsig != ftvec && fsig != cbf
      && fk != fsmooth && fk != ftvec && fk != cbf
      && fsmooth != ftvec && fsmooth != cbf && ftvec != cbf
    }

    ghost function Averaging(): Adaptation
      reads fsig, fk, fsmooth
    {
      Adaptation(fsig[..], fk[..], fsmooth[..])
    }

    ghost function PreState(): Registers
      reads fb, fc
    {
      Registers(fb[..], fc[..])
    }

    ghost function PostState(): Registers
      reads frb, frc
    {
      Registers(frb[..], frc[..])
    }

    ghost predicate Shape()
      reads fsig
    {
      && Arrays() && size >= 3
      && 0.0 <= alph <= 1.0
      && forall i :: 0 <= i < order ==> fsig[i] >= 0.0
    }

    /** The coefficient ring, column by column. */
    ghost function Ring(): (r: seq<seq<real>>)
      reads fbuff
      ensures |r| == fbuff.Length1
    {
      seq(fbuff.Length1, c requires 0 <= c < fbuff.Length1 reads fbuff =>
        seq(fbuff.Length0, i requires 0 <= i < fbuff.Length0 && 0 <= c < fbuff.Length1 reads fbuff => fbuff[i, c]))
    }

    ghost predicate Valid()
      reads this, fsig, fbuff, cbf
    {
      && Shape() && cbiwr == |columns| % size && RingHolds(Ring(), columns, order)
      && |residuals| == |columns| && RecordRing.Ring(cbf[..], residuals)
    }

    /** One stage of the pre-filter: every cell that belongs to the stage is overwritten. */
    method StoreStage(fa: real, fbv: real, ti4: nat, i: nat) returns (c: real, tf: real)
      requires Shape() && ti4 < size && i < order
      modifies fb, fc, fsig, fk, fsmooth, fbuff
      ensures Shape()
      ensures c == AllPass(lam, old(PreState()), fbv, i)
      ensures tf == Coefficient(alph, old(fsig[i]), old(fk[i]), old(fsmooth[i]), fa, c)
      ensures fb[..] == old(fb[..])[i := fbv] && fc[..] == old(fc[..])[i := c]
      ensures fsig[..] == old(fsig[..])[i := Power(alph, old(fsig[i]), fa)]
      ensures fk[..] == old(fk[..])[i := Crossed(alph, old(fk[i]), fa, c)]
      ensures fsmooth[..] == old(fsmooth[..])[i := tf]
      ensures fbuff[i, ti4] == tf
      ensures forall j, d :: 0 <= j < order && 0 <= d < size && (j != i || d != ti4) ==> fbuff[j, d] == old(fbuff[j, d])
    {
      hide AllPass, Coefficient, Power, Crossed;
      var sig, k;
      c, sig, k, tf := AdaptStage(fa, fbv, fb[i], fc[i], fsig[i], fk[i], fsmooth[i], PreState(), i);
      assert sig >= 0.0;
      fsig[i] := sig;
      fc[i] := c;
      fb[i] := fbv;
      fk[i] := k;
      fsmooth[i] := tf;
      fbuff[i, ti4] := tf;
    }

    /** The pre-filter's stage loop: adapt, store and apply one coefficient after the other. */
    method AdaptLoop(x: real, ti4: nat) returns (fa: real, ghost ks: seq<real>)
      requires Shape() && ti4 < size
      modifies fb, fc, fsig, fk, fsmooth, fbuff
      ensures Shape()
      ensures ks == Adapted(lam, alph, old(Averaging()), old(PreState()), x)
      ensures fa == Output(lam, old(PreState()), ks, x)
      ensures PreState() == Shifted(lam, old(PreState()), ks, x)
      ensures Averaging() == Averages(lam, alph, old(Averaging()), old(PreState()), x)
      ensures Ring() == old(Ring())[ti4 := ks]
    {
      hide AllPass, Stage, Shifted, Averages, Adapted, Coefficient, Power, Crossed, Spliced;
      ghost var s, ad, ring := PreState(), Averaging(), Ring();
      ks := Adapted(lam, alph, ad, s, x);
      ghost var after, later := Shifted(lam, s, ks, x), Averages(lam, alph, ad, s, x);
      fa := x;
      var fbv := x;
      StageZero(lam, s, ks, x);
      SmoothIsAdapted(lam, alph, ad, s, x);
      SplicedEnds(after.b, s.b);
      SplicedEnds(after.c, s.c);
      SplicedEnds(later.sig, ad.sig);
      SplicedEnds(later.fk, ad.fk);
      SplicedEnds(ks, ad.smooth);
      for i := 0 to order
        invariant Shape()
        invariant Pair(fa, fbv) == Stage(lam, s, ks, x, i)
        invariant fb[..] == Spliced(after.b, s.b, i) && fc[..] == Spliced(after.c, s.c, i)
        invariant fsig[..] == Spliced(later.sig, ad.sig, i)
        invariant fk[..] == Spliced(later.fk, ad.fk, i)
        invariant fsmooth[..] == Spliced(ks, ad.smooth, i)
        invariant forall j :: 0 <= j < i ==> fbuff[j, ti4] == ks[j]
        invariant forall j, d :: 0 <= j < order && 0 <= d < size && d != ti4 ==> fbuff[j, d] == ring[d][j]
      {
        ghost var p := Pair(fa, fbv);
        SplicedNext(after.b, s.b, i);
        SplicedNext(after.c, s.c, i);
        SplicedNext(later.sig, ad.sig, i);
        SplicedNext(later.fk, ad.fk, i);
        SplicedNext(ks, ad.smooth, i);
        assert PreState().b[i] == s.b[i] && PreState().c[i] == s.c[i];
        SameAllPass(lam, PreState(), s, fbv, i);
        assert fsig[i] == ad.sig[i] && fk[i] == ad.fk[i] && fsmooth[i] == ad.smooth[i];
        var c, tf := StoreStage(fa, fbv, ti4, i);
        NextStage(lam, alph, ad, s, x, i, p, c, ks);
        StoredAt(lam, alph, ad, s, x, i, p, c, ks);
        fbv := c - tf * fa;
        fa := fa - tf * c;
      }
      assert forall d :: 0 <= d < size ==> Ring()[d] == ring[ti4 := ks][d];
    }

    /** The arithmetic of one pre-filter stage. */
    method AdaptStage(fa: real, fbv: real, b: real, cold: real, sig0: real, k0: real, smooth0: real,
        ghost s: Registers, ghost i: nat)
      returns (c: real, sig: real, k: real, tf: real)
      requires 0.0 <= alph <= 1.0 && sig0 >= 0.0
      requires i < |s.b| == |s.c| && b == s.b[i] && cold == s.c[i]
      ensures c == AllPass(lam, s, fbv, i)
      ensures sig == Power(alph, sig0, fa) && k == Crossed(alph, k0, fa, c)
      ensures tf == Coefficient(alph, sig0, k0, smooth0, fa, c)
    {
      var oma := 1.0 - alph;
      sig := fa * fa * oma + sig0 * alph;
      c := (fbv - cold) * lam + b;
      k := fa * c * oma + k0 * alph;
      assert sig == Power(alph, sig0, fa);
      tf := k / (sig + 0.000001);
      tf := tf * oma + smooth0 * alph;
    }

    /** One sample through the pre-filter: the residual is stored, and the coefficients join the ring. */
    method PreFilter(x: real)
      requires Valid()
      modifies this, fb, fc, fsig, fk, fsmooth, fbuff, cbf
      ensures Valid()
      ensures columns == old(columns) + [Adapted(lam, alph, old(Averaging()), old(PreState()), x)]
      ensures residuals == old(residuals) + [Output(lam, old(PreState()), columns[|columns| - 1], x)]
      ensures PreState() == Shifted(lam, old(PreState()), columns[|columns| - 1], x)
      ensures Averaging() == Averages(lam, alph, old(Averaging()), old(PreState()), x)
      ensures PostState() == old(PostState())
    {
      hide Stage, Shifted, Averages, Adapted, Output;
      var fa;
      ghost var ks;
      fa, ks := AdaptLoop(x, cbiwr);
      RecordRing.RingNext(cbf[..], residuals, fa);
      hide RecordRing.Ring;
      ghost var sent := cbf[..];
      cbf[cbiwr] := fa;
      assert cbf[..] == sent[cbiwr := fa];
      WriteColumn(old(Ring()), columns, ks, order);
      Division.NextRemainder(|columns|, size);
      cbiwr := cbiwr + 1;
      if cbiwr >= size {
        cbiwr := 0;
      }
      columns := columns + [ks];
      residuals := residuals + [fa];
    }

    /** One residual sample through the post-filter, with the coefficients of size - 3 samples back. */
    method PostSample(rlam: real, residual: real) returns (y: real)
      requires Valid()
      modifies frb, frc, ftvec
      ensures Valid() && columns == old(columns) && residuals == old(residuals)
      ensures y == Solved(rlam, old(PostState()), DelayedColumn(columns, size, order), residual)
      ensures PostState() == Shifted(rlam, old(PostState()), DelayedColumn(columns, size, order), y)
      ensures PreState() == old(PreState()) && Averaging() == old(Averaging())
    {
      var ks := ReadRing();
      hide *;
      y := PostFilter(rlam, frb, frc, ks, residual, ftvec);
    }

    /** The residual of size - 3 samples back, where the coefficients are read as well. */
    method DelayedResidual() returns (r: real)
      requires Valid()
      ensures r == At(residuals, |residuals| - (size - 2))
    {
      SameColumn(|residuals| - (size - 2), |residuals|, size);
      r := cbf[(cbiwr + 2) % size];
    }

    method ReadRing() returns (ks: seq<real>)
      requires Valid()
      ensures ks == DelayedColumn(columns, size, order)
    {
      ReadColumn(Ring(), columns, order);
      var ti4 := (cbiwr + 2) % size;
      ks := seq(order, i requires 0 <= i < order reads fbuff => fbuff[i, ti4]);
      assert ks == Ring()[ti4];
    }
  }

  lemma SameColumn(t: int, n: nat, size: nat)
    requires size >= 3 && n + 2 == t + size
    ensures t % size == (n % size + 2) % size
  {
    var q, r := n / size, n % size;
    Division.Parts(n, size);
    if r + 2 < size {
      Division.Distribute(size, q, 1);
      Division.Divided(t, size, q - 1, r + 2);
      Division.SmallRemainder(r + 2, size);
    } else {
      Division.Divided(t, size, q, r + 2 - size);
      Division.WrappedRemainder(r + 2, size);
    }
  }
}
