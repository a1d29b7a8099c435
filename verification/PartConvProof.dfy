/** The scheduled ring of accumulators computes the convolution, at a fixed delay, for every run. */
module PartConvProof {
  import opened Samples
  import opened RealSums
  import opened Spectra
  import opened PartConvModel
  import opened Convolution
  import opened Division

  // ---- Dealing the work ----

  /** The number of partitions dealt to the first c calls of a cycle. */
  function DealtBefore(parts: nat, calls: nat, c: nat): nat
    requires calls > 0
  {
    c * (parts / calls) + Min(c, parts % calls)
  }

  lemma DealtNext(parts: nat, calls: nat, c: nat)
    requires calls > 0
    ensures DealtBefore(parts, calls, c + 1) == DealtBefore(parts, calls, c) + Share(parts, calls, c)
  {
    assert (c + 1) * (parts / calls) == c * (parts / calls) + parts / calls;
  }

  lemma DealtAll(parts: nat, calls: nat)
    requires calls > 0
    ensures DealtBefore(parts, calls, 0) == 0
    ensures DealtBefore(parts, calls, calls) == parts
  {
    assert parts == calls * (parts / calls) + parts % calls;
  }

  lemma {:induction false} DealtAtMost(parts: nat, calls: nat, c: nat)
    requires c <= calls && calls > 0
    ensures DealtBefore(parts, calls, c) <= parts
    decreases calls - c
  {
    if c == calls {
      DealtAll(parts, calls);
    } else {
      DealtAtMost(parts, calls, c + 1);
      DealtNext(parts, calls, c);
    }
  }

  lemma FirstShare(parts: nat, calls: nat)
    requires calls > 0 && parts > 0
    ensures Share(parts, calls, 0) >= 1
  {
    assert parts == calls * (parts / calls) + parts % calls;
    if parts / calls == 0 {
      assert calls * (parts / calls) == 0;
    }
  }

  ghost function SumOf(s: seq<nat>): nat {
    if s == [] then 0 else SumOf(s[..|s| - 1]) + s[|s| - 1]
  }

  lemma {:induction false} SumOfDealt(perCall: seq<nat>, parts: nat, calls: nat, c: nat)
    requires 0 < calls <= |perCall| && c <= calls
    ensures SumOf(Dealt(perCall, parts, calls)[..c]) == DealtBefore(parts, calls, c)
  {
    if c > 0 {
      SumOfDealt(perCall, parts, calls, c - 1);
      DealtNext(parts, calls, c - 1);
      var d := Dealt(perCall, parts, calls);
      assert d[..c][..c - 1] == d[..c - 1];
    } else {
      DealtAll(parts, calls);
    }
  }

  /** Dealing conserves partitions, is even to within one, and never leaves the first call without work. */
  lemma DealConserves(perCall: seq<nat>, parts: nat, calls: nat)
    requires 0 < calls <= |perCall|
    ensures var d := Dealt(perCall, parts, calls);
      && SumOf(d[..calls]) == parts
      && (forall a, b :: 0 <= a < b < calls ==> d[b] <= d[a] <= d[b] + 1)
      && (parts > 0 ==> d[0] >= 1)
  {
    SumOfDealt(perCall, parts, calls, calls);
    DealtAll(parts, calls);
    if parts > 0 {
      FirstShare(parts, calls);
    }
  }

  // ---- The ring ----

  /** The ring slot d places after the current one. */
  function Slot(cur: nat, d: nat, ring: nat): (i: nat)
    requires cur < ring && d < ring
    ensures i < ring
  {
    if cur + d < ring then cur + d else cur + d - ring
  }

  lemma SlotIsModulo(cur: nat, d: nat, ring: nat)
    requires cur < ring && d < ring
    ensures (cur + d) % ring == Slot(cur, d, ring)
  {
    if cur + d >= ring {
      WrappedRemainder(cur + d, ring);
    } else {
      SmallRemainder(cur + d, ring);
    }
  }

  lemma NextIsSlot(cur: nat, ring: nat)
    requires cur < ring && 2 <= ring
    ensures Next(cur, ring) == Slot(cur, 1, ring)
    ensures Prev(cur, ring) == Slot(cur, ring - 1, ring)
  {
    SlotIsModulo(cur, 1, ring);
  }

  /** One partition more in the convolution loop. */
  lemma ConvolvedNext(bufs: seq<Buffer>, cur: nat, x: Buffer, irs: seq<Buffer>, from: nat, p: nat)
    requires from <= p < |irs| && |bufs| == |irs| + 2 && |x| % 2 == 0
    requires forall b :: 0 <= b < |bufs| ==> |bufs[b]| == |x|
    requires forall p :: 0 <= p < |irs| ==> |irs[p]| == |x|
    ensures var done, i := Convolved(bufs, cur, x, irs, from, p), (cur + p) % |bufs|;
      Convolved(bufs, cur, x, irs, from, p + 1) == done[i := Accumulated(done[i], x, irs[p])]
  {
    hide Accumulated;
  }

  lemma ConvolvedNone(bufs: seq<Buffer>, cur: nat, x: Buffer, irs: seq<Buffer>, from: nat)
    requires from <= |irs| && |bufs| == |irs| + 2 && |x| % 2 == 0
    requires forall b :: 0 <= b < |bufs| ==> |bufs[b]| == |x|
    requires forall p :: 0 <= p < |irs| ==> |irs[p]| == |x|
    ensures Convolved(bufs, cur, x, irs, from, from) == bufs
  {
  }

  /** One pass over partitions from..upto touches exactly the slots from..upto, each once. */
  lemma {:induction false} ConvolvedSlot(bufs: seq<Buffer>, cur: nat, input: Buffer, irs: seq<Buffer>, from: nat,
      upto: nat, d: nat, i: nat)
    requires from <= upto <= |irs| && |bufs| == |irs| + 2
    requires |input| % 2 == 0
    requires forall b :: 0 <= b < |bufs| ==> |bufs[b]| == |input|
    requires forall p :: 0 <= p < |irs| ==> |irs[p]| == |input|
    requires cur < |bufs| && d < |bufs| && i == Slot(cur, d, |bufs|)
    ensures Convolved(bufs, cur, input, irs, from, upto)[i]
         == (if from <= d < upto then Accumulated(bufs[i], input, irs[d]) else bufs[i])
    decreases upto
  {
    hide Convolved, Accumulated;
    ConvolvedNone(bufs, cur, input, irs, from);
    if from < upto {
      ConvolvedSlot(bufs, cur, input, irs, from, upto - 1, d, i);
      ConvolvedNext(bufs, cur, input, irs, from, upto - 1);
      SlotIsModulo(cur, upto - 1, |bufs|);
      assert Slot(cur, upto - 1, |bufs|) == i <==> d == upto - 1;
      hide Slot, Accumulated;
    }
  }

  // ---- What each slot holds ----

  ghost function Spectrum(t: Transform, P: nat, x: Stream, k: int): Buffer {
    if k < 0 then Zeros(2 * P + 2) else t.forward(PaddedTo2(Block(x, P, k)))
  }

  ghost predicate IrOf(t: Transform, P: nat, h: seq<real>, irs: seq<Buffer>)
    requires P > 0
  {
    forall p :: 0 <= p < |irs| ==> irs[p] == t.forward(PaddedTo2(Partition(h, P, p)))
  }

  ghost predicate SizedIr(P: nat, irs: seq<Buffer>) {
    forall p :: 0 <= p < |irs| ==> |irs[p]| == 2 * P + 2
  }

  /** The sum over p >= q of input block e-p times partition p, as spectra. */
  ghost function Tail(t: Transform, P: nat, irs: seq<Buffer>, x: Stream, e: int, q: nat): (r: Buffer)
    requires Sized(t, P) && SizedIr(P, irs)
    ensures |r| == 2 * P + 2
    decreases |irs| - q
  {
    if q >= |irs| then Zeros(2 * P + 2)
    else Accumulated(Tail(t, P, irs, x, e, q + 1), Spectrum(t, P, x, e - q), irs[q])
  }

  lemma AccumulateSilence(b: Buffer, ir: Buffer)
    requires |b| == |ir| && |b| % 2 == 0
    ensures Accumulated(b, Zeros(|b|), ir) == b
  {
    forall i | 0 <= i < |b|
      ensures Product(Zeros(|b|), ir)[i] == 0.0
    {
    }
  }

  /** Before any input block, the sum is empty. */
  lemma {:induction false} TailBeforeStart(t: Transform, P: nat, irs: seq<Buffer>, x: Stream, e: int, q: nat)
    requires Sized(t, P) && SizedIr(P, irs)
    requires e < q
    ensures Tail(t, P, irs, x, e, q) == Zeros(2 * P + 2)
    decreases |irs| - q
  {
    if q < |irs| {
      TailBeforeStart(t, P, irs, x, e, q + 1);
      AccumulateSilence(Zeros(2 * P + 2), irs[q]);
    }
  }

  ghost predicate Silence(u: seq<real>) {
    forall i :: 0 <= i < |u| ==> u[i] == 0.0
  }

  lemma SilentBlock(x: Stream, P: nat, k: int)
    requires Causal(x) && k < 0
    ensures Silence(Block(x, P, k))
  {
    forall i | 0 <= i < P
      ensures Block(x, P, k)[i] == 0.0
    {
      assert (-1 - k) * P >= 0;
      assert k * P + i < 0;
    }
  }

  lemma SilentPair(x: Stream, h: seq<real>, P: nat, k: int, q: nat, o: int)
    requires P > 0 && Causal(x) && k < 0
    ensures PairAt(x, h, P, k, q, o) == 0.0
  {
    var u, v := PaddedTo2(Block(x, P, k)), PaddedTo2(Partition(h, P, q));
    SilentBlock(x, P, k);
    assert Silence(u);
    var f := CircularTerm(u, v, o);
    forall j | 0 <= j < |v|
      ensures f(j) == 0.0
    {
      assert u[(o - j) % |u|] == 0.0;
    }
    SumZero(f, 0, |v|);
  }

  lemma PairSamples(t: Transform, P: nat, x: Stream, h: seq<real>, k: int, q: nat, ir: Buffer, o: int)
    requires P > 0 && IsTransform(t, P) && Causal(x) && 0 <= o < 2 * P
    requires ir == t.forward(PaddedTo2(Partition(h, P, q)))
    ensures |Product(Spectrum(t, P, x, k), ir)| == 2 * P + 2
    ensures |t.inverse(Product(Spectrum(t, P, x, k), ir))| == 2 * P + 2
    ensures t.inverse(Product(Spectrum(t, P, x, k), ir))[o] == t.gain * PairAt(x, h, P, k, q, o)
  {
    if k < 0 {
      SilentPair(x, h, P, k, q, o);
      var z := Zeros(2 * P + 2);
      AccumulateSilence(z, ir);
      assert Product(z, ir) == z;
      hide *;
      InverseZeros(t, P, o);
    }
  }

  lemma InverseZeros(t: Transform, P: nat, o: int)
    requires P > 0 && IsTransform(t, P) && 0 <= o < 2 * P
    ensures |t.inverse(Zeros(2 * P + 2))| == 2 * P + 2 && t.inverse(Zeros(2 * P + 2))[o] == 0.0
  {
  }

  lemma InverseAdds(t: Transform, P: nat, a: Buffer, b: Buffer, o: int)
    requires P > 0 && IsTransform(t, P) && |a| == |b| == 2 * P + 2 && 0 <= o < 2 * P
    ensures |t.inverse(a)| == |t.inverse(b)| == |t.inverse(Plus(a, b))| == 2 * P + 2
    ensures t.inverse(Plus(a, b))[o] == t.inverse(a)[o] + t.inverse(b)[o]
  {
  }

  ghost function InversePairs(t: Transform, P: nat, irs: seq<Buffer>, x: Stream, e: int, o: nat): int -> real
    requires Sized(t, P) && SizedIr(P, irs) && o < 2 * P
  {
    q => if 0 <= q < |irs| then t.inverse(Product(Spectrum(t, P, x, e - q), irs[q]))[o] else 0.0
  }

  /** The inverse transform of a sum is the sum of the inverse transforms. */
  lemma {:induction false} TailInverse(t: Transform, P: nat, irs: seq<Buffer>, x: Stream, e: int, q: nat, o: nat)
    requires P > 0 && IsTransform(t, P) && SizedIr(P, irs) && o < 2 * P
    ensures t.inverse(Tail(t, P, irs, x, e, q))[o] == Sum(InversePairs(t, P, irs, x, e, o), q, |irs|)
    decreases |irs| - q
  {
    if q < |irs| {
      TailInverse(t, P, irs, x, e, q + 1, o);
      InverseAdds(t, P, Tail(t, P, irs, x, e, q + 1), Product(Spectrum(t, P, x, e - q), irs[q]), o);
      SumFirst(InversePairs(t, P, irs, x, e, o), q, |irs|);
    } else {
      assert Tail(t, P, irs, x, e, q) == Zeros(2 * P + 2);
    }
  }

  /** Two scaled sums, added and scaled down. */
  lemma HalvesAdded(f1: int -> real, g1: int -> real, f2: int -> real, g2: int -> real, m: real, scale: real, n: nat)
    requires m * scale == 1.0 && Scales(f1, g1, m, 0, n) && Scales(f2, g2, m, 0, n)
    ensures Mixed(Sum(g1, 0, n), Sum(g2, 0, n), scale) == Sum(f1, 0, n) + Sum(f2, 0, n)
  {
    SumScale(f1, g1, m, 0, n);
    SumScale(f2, g2, m, 0, n);
    Unscale(m, scale, Sum(f1, 0, n), Sum(f2, 0, n));
  }

  lemma Unscale(m: real, scale: real, a: real, b: real)
    requires m * scale == 1.0
    ensures Mixed(m * a, m * b, scale) == a + b
  {
    calc {
      (m * a + m * b) * scale;
      (a + b) * (m * scale);
      a + b;
    }
  }

  /** The finished sums of a cycle and the one before, as sums over partitions. */
  lemma TailsAreSums(t: Transform, P: nat, irs: seq<Buffer>, x: Stream, h: seq<real>, c: int, o: nat, g1: int -> real,
      g2: int -> real)
    requires P > 0 && IsTransform(t, P) && Causal(x) && o < P
    requires IrOf(t, P, h, irs) && SizedIr(P, irs)
    requires g1 == InversePairs(t, P, irs, x, c, o) && g2 == InversePairs(t, P, irs, x, c - 1, P + o)
    ensures t.inverse(Tail(t, P, irs, x, c, 0))[o] == Sum(g1, 0, |irs|)
    ensures t.inverse(Tail(t, P, irs, x, c - 1, 0))[P + o] == Sum(g2, 0, |irs|)
    ensures Scales(PairsAt(x, h, P, c, o), g1, t.gain, 0, |irs|)
    ensures Scales(PairsAt(x, h, P, c - 1, P + o), g2, t.gain, 0, |irs|)
  {
    TailInverse(t, P, irs, x, c, 0, o);
    TailInverse(t, P, irs, x, c - 1, 0, P + o);
    ScaledPairs(t, P, irs, x, h, c, 0, o);
    ScaledPairs(t, P, irs, x, h, c - 1, 0, P + o);
  }

  /** What the output loop computes in cycle c at offset o is the overlap-add of the partitioned convolution. */
  lemma MixedIsOverlapped(t: Transform, P: nat, irs: seq<Buffer>, x: Stream, h: seq<real>, c: int, o: nat, a: real,
      b: real, scale: real)
    requires P > 0 && IsTransform(t, P) && Causal(x) && o < P && t.gain * scale == 1.0
    requires IrOf(t, P, h, irs) && SizedIr(P, irs)
    requires a == t.inverse(Tail(t, P, irs, x, c, 0))[o]
    requires b == t.inverse(Tail(t, P, irs, x, c - 1, 0))[P + o]
    ensures Mixed(a, b, scale) == OverlappedAt(x, h, P, |irs|, c, o)
  {
    hide IrOf, Tail, PairsAt, InversePairs, Sum;
    var g1, g2 := InversePairs(t, P, irs, x, c, o), InversePairs(t, P, irs, x, c - 1, P + o);
    TailsAreSums(t, P, irs, x, h, c, o, g1, g2);
    HalvesAdded(PairsAt(x, h, P, c, o), g1, PairsAt(x, h, P, c - 1, P + o), g2, t.gain, scale, |irs|);
  }

  lemma ScaledPairs(t: Transform, P: nat, irs: seq<Buffer>, x: Stream, h: seq<real>, e: int, q: nat, o: nat)
    requires P > 0 && IsTransform(t, P) && Causal(x)
    requires IrOf(t, P, h, irs) && SizedIr(P, irs)
    requires o < 2 * P
    ensures Scales(PairsAt(x, h, P, e, o), InversePairs(t, P, irs, x, e, o), t.gain, q, |irs|)
  {
    forall p | q <= p < |irs|
      ensures InversePairs(t, P, irs, x, e, o)(p) == t.gain * PairsAt(x, h, P, e, o)(p)
    {
      ScaledPair(t, P, irs, x, h, e, p, o);
    }
  }

  lemma ScaledPair(t: Transform, P: nat, irs: seq<Buffer>, x: Stream, h: seq<real>, e: int, p: nat, o: nat)
    requires P > 0 && IsTransform(t, P) && Causal(x)
    requires IrOf(t, P, h, irs) && SizedIr(P, irs)
    requires o < 2 * P && p < |irs|
    ensures InversePairs(t, P, irs, x, e, o)(p) == t.gain * PairsAt(x, h, P, e, o)(p)
  {
    PairSamples(t, P, x, h, e - p, p, irs[p], o);
  }

  /** Slot d after the current one: what it has received so far from blocks up to c. */
  ghost function Partial(s: State, x: Stream, c: int, d: nat): Buffer
    requires Sized(s.t, s.partsize) && SizedIr(s.partsize, s.irs)
  {
    Tail(s.t, s.partsize, s.irs, x, c + d, if d < s.curpart then d else d + 1)
  }

  /** Slots from..nparts after the current one hold their partial sums for cycle c. */
  ghost predicate Accumulating(s: State, x: Stream, c: int, from: nat)
    requires s.WellFormed()
  {
    forall d :: from <= d <= |s.irs| ==> s.bufs[Slot(s.cur, d, s.Ring())] == Partial(s, x, c, d)
  }

  /** The buffer shows the samples of the finished sum of cycle c. */
  ghost predicate Finished(s: State, x: Stream, b: Buffer, c: int)
    requires s.WellFormed() && |b| == s.Padded()
  {
    forall o :: 0 <= o < 2 * s.partsize ==>
      b[o] == s.t.inverse(Tail(s.t, s.partsize, s.irs, x, c, 0))[o]
  }

  // ---- The invariant of a run ----

  /** Facts that no call changes: K calls with n samples each fill the input buffer. */
  ghost predicate Fixed(s: State, x: Stream, h: seq<real>, n: nat, K: nat) {
    && s.WellFormed()
    && IsTransform(s.t, s.partsize)
    && s.t.gain * s.scale == 1.0
    && Causal(x)
    && |s.irs| == PartCount(|h|, s.partsize)
    && IrOf(s.t, s.partsize, h, s.irs)
    && 0 < n && 0 < K <= MAX_PARTS && s.partsize == K * n
  }

  ghost predicate WorkDealt(s: State, K: nat)
    requires 0 < K <= |s.perCall|
  {
    forall c :: 0 <= c < K ==> s.perCall[c] == Share(|s.irs|, K, c)
  }

  /** The gathering buffer holds the first len samples of input block C. */
  ghost predicate Gathered(s: State, x: Stream, len: nat, C: nat)
    requires s.WellFormed()
  {
    && s.inbufpos == len <= s.partsize
    && forall j :: 0 <= j < len ==> s.inbuf[j] == x(C * s.partsize + j)
  }

  function PrevSlot(s: State): nat { Prev(s.cur, s.Ring()) }

  ghost predicate ReadFrom(s: State, current: nat, previous: nat)
    requires s.WellFormed()
  {
    s.readpos[s.cur] == current && s.readpos[PrevSlot(s)] == previous
  }

  ghost predicate SilentRing(s: State)
    requires s.WellFormed()
  {
    && s.input == Zeros(s.Padded())
    && (forall d :: 1 <= d < s.Ring() ==> s.bufs[Slot(s.cur, d, s.Ring())] == Zeros(s.Padded()))
    && Silent(s.bufs[s.cur], s.partsize)
  }

  /** Before the first cycle everything is silent. */
  ghost predicate Idle(s: State, n: nat, K: nat, r: nat)
    requires s.WellFormed() && 0 < K <= MAX_PARTS
  {
    && s.curcall == r
    && SilentRing(s)
    && ReadFrom(s, r * n, r * n)
    && (r == 0 ==> s.bufs[s.cur] == Zeros(s.Padded()))
    && (s.blocksize == n ==> WorkDealt(s, K))
  }

  /** In cycle c, after `calls` of its calls; slots from `from` on are still accumulating. */
  ghost predicate Cycling(s: State, x: Stream, n: nat, K: nat, c: int, calls: nat, from: nat)
    requires s.WellFormed() && 0 < K <= MAX_PARTS
  {
    && s.blocksize == n
    && s.curcall == calls
    && WorkDealt(s, K)
    && s.curpart == DealtBefore(|s.irs|, K, calls)
    && s.input == Spectrum(s.t, s.partsize, x, c)
    && ReadFrom(s, calls * n, s.partsize + calls * n)
    && Finished(s, x, s.bufs[PrevSlot(s)], c - 1)
    && Accumulating(s, x, c, from)
  }

  /** After C full input blocks and r calls towards the next one. */
  ghost predicate Invariant(s: State, x: Stream, h: seq<real>, n: nat, K: nat, C: nat, r: nat) {
    && Fixed(s, x, h, n, K)
    && r < K
    && Gathered(s, x, r * n, C)
    && (C == 0 ==> Idle(s, n, K, r))
    && (C > 0 ==> Cycling(s, x, n, K, C - 1, r + 1, 1) && Finished(s, x, s.bufs[s.cur], C - 1))
  }

  lemma Quotient(P: nat, n: nat, K: nat)
    requires 0 < n && P == K * n
    ensures P / n == K && P % n == 0
  {
    Divided(P, n, K, 0);
  }

  lemma CallsBound(n: nat, K: nat, r: nat)
    requires r < K
    ensures r * n + n == (r + 1) * n <= K * n
    ensures r + 1 < K ==> r * n + 2 * n <= K * n
  {
    Distribute(n, r, 1);
    Times(r + 1, K, n);
    if r + 1 < K {
      Distribute(n, r, 2);
      Times(r + 2, K, n);
    }
  }

  /** The invariant is enough for a call to be safe. */
  lemma InvariantReady(s: State, x: Stream, h: seq<real>, n: nat, K: nat, C: nat, r: nat)
    requires Invariant(s, x, h, n, K, C, r)
    ensures s.Ready(n)
  {
    Quotient(s.partsize, n, K);
    CallsBound(n, K, r);
  }

  // ---- One call, phase by phase ----

  lemma GatherStep(s: State, x: Stream, block: seq<real>, len: nat, C: nat)
    requires s.Ready(|block|) && Gathered(s, x, len, C)
    requires forall i :: 0 <= i < |block| ==> block[i] == x(C * s.partsize + len + i)
    ensures Gathered(Gather(s, block), x, len + |block|, C)
  {
    var s1 := Gather(s, block);
    forall j | 0 <= j < len + |block|
      ensures s1.inbuf[j] == x(C * s.partsize + j)
    {
      if j >= len {
        assert s1.inbuf[j] == block[j - len];
        assert C * s.partsize + len + (j - len) == C * s.partsize + j;
      }
    }
  }

  /** The ring before and after a cycle begins; everything else BeginCycle sets is plain. */
  lemma BeginRing(s: State, n: nat, s2: State, d: nat)
    requires s.WellFormed() && 0 < n <= s.partsize && s.partsize / n <= MAX_PARTS && s2 == BeginCycle(s, n)
    requires d <= |s.irs|
    ensures s2 == s.(inbufpos := 0, curcall := 0, curpart := 0, blocksize := n, perCall := s2.perCall,
                     input := s.t.forward(PaddedTo2(s.inbuf)), bufs := s2.bufs, cur := s2.cur, readpos := s2.readpos)
    ensures ReadFrom(s2, 0, s.partsize)
    ensures PrevSlot(s2) == s.cur && s2.bufs[s.cur] == s.bufs[s.cur]
    ensures s2.bufs[Slot(s2.cur, d, s.Ring())]
         == if d == |s.irs| then Zeros(s.Padded()) else s.bufs[Slot(s.cur, d + 1, s.Ring())]
  {
    NextIsSlot(s.cur, s.Ring());
    NextIsSlot(s2.cur, s.Ring());
    assert Slot(s2.cur, d, s.Ring()) == Slot(s.cur, d + 1, s.Ring());
  }

  lemma BeginWork(s: State, n: nat, K: nat, s2: State)
    requires s.WellFormed() && 0 < n <= s.partsize && s.partsize / n == K <= MAX_PARTS && s2 == BeginCycle(s, n)
    requires K > 0 && (s.blocksize == n ==> WorkDealt(s, K))
    ensures |s2.perCall| == MAX_PARTS && s2.irs == s.irs && WorkDealt(s2, K)
  {
  }

  /** The slot that a new cycle puts at distance d holds what it should. */
  lemma BeginSlot(s: State, x: Stream, C: nat, s2: State, d: nat)
    requires s.WellFormed() && s2.WellFormed() && d <= |s.irs|
    requires s2.t == s.t && s2.partsize == s.partsize && s2.irs == s.irs && s2.curpart == 0
    requires s2.bufs[Slot(s2.cur, d, s.Ring())]
          == if d == |s.irs| then Zeros(s.Padded()) else s.bufs[Slot(s.cur, d + 1, s.Ring())]
    requires C == 0 ==> SilentRing(s)
    requires C > 0 ==> s.curpart == |s.irs| && Accumulating(s, x, C - 1, 1)
    ensures s2.bufs[Slot(s2.cur, d, s2.Ring())] == Partial(s2, x, C, d)
  {
    hide Convolved, BeginCycle, Tail, Slot;
    if C == 0 {
      TailBeforeStart(s.t, s.partsize, s.irs, x, d, d + 1);
    } else {
      if d < |s.irs| {
        assert s.bufs[Slot(s.cur, d + 1, s.Ring())] == Partial(s, x, C - 1, d + 1);
      }
      if d + 1 >= |s.irs| {
        TailEmpty(s.t, s.partsize, s.irs, x, C + d, d + 1);
        TailEmpty(s.t, s.partsize, s.irs, x, C + d, d + 2);
      }
    }
  }

  lemma TailEmpty(t: Transform, P: nat, irs: seq<Buffer>, x: Stream, e: int, q: nat)
    requires Sized(t, P) && SizedIr(P, irs) && q >= |irs|
    ensures Tail(t, P, irs, x, e, q) == Zeros(2 * P + 2)
  {
  }

  /** Everything a new cycle starts from. */
  lemma BeginStep(s: State, x: Stream, h: seq<real>, n: nat, K: nat, C: nat, s2: State)
    requires Fixed(s, x, h, n, K) && n <= s.partsize && s.partsize / n == K && s2 == BeginCycle(s, n)
    requires Gathered(s, x, s.partsize, C)
    requires C == 0 ==> SilentRing(s) && (s.blocksize == n ==> WorkDealt(s, K))
    requires C > 0 ==> Cycling(s, x, n, K, C - 1, K, 1) && Finished(s, x, s.bufs[s.cur], C - 1)
    ensures s2.WellFormed() && Cycling(s2, x, n, K, C, 0, 0)
  {
    hide BeginCycle, Prepared, Turned, PartCount, IrOf, Tail, Slot;
    BeginRing(s, n, s2, 0);
    BeginWork(s, n, K, s2);
    DealtAll(|s.irs|, K);
    assert s.inbuf == Block(x, s.partsize, C) by {
      assert forall j :: 0 <= j < s.partsize ==> s.inbuf[j] == x(C * s.partsize + j);
    }
    if C == 0 {
      TailBeforeStart(s.t, s.partsize, s.irs, x, -1, 0);
    }
    forall d | 0 <= d <= |s.irs|
      ensures s2.bufs[Slot(s2.cur, d, s2.Ring())] == Partial(s2, x, C, d)
    {
      BeginRing(s, n, s2, d);
      BeginSlot(s, x, C, s2, d);
    }
  }

  /** The slots of one call: each partition dealt to it is added to its slot, and to no other. */
  lemma ConvolveSlots(s: State, s2: State, d: nat)
    requires s.WellFormed() && s.curcall < MAX_PARTS && s2 == ConvolveStep(s) && d < s.Ring()
    ensures s2.bufs[Slot(s.cur, d, s.Ring())]
         == if s.curpart <= d < EndPart(s) then Accumulated(s.bufs[Slot(s.cur, d, s.Ring())], s.input, s.irs[d])
            else s.bufs[Slot(s.cur, d, s.Ring())]
  {
    ConvolvedSlot(s.bufs, s.cur, s.input, s.irs, s.curpart, EndPart(s), d, Slot(s.cur, d, s.Ring()));
  }

  /** The work dealt to a call never runs past the last partition, so the clamp has no effect. */
  lemma NoClamp(s: State, K: nat)
    requires s.WellFormed() && 0 < K <= MAX_PARTS && s.curcall < K && WorkDealt(s, K)
    requires s.curpart == DealtBefore(|s.irs|, K, s.curcall)
    ensures EndPart(s) == s.curpart + s.perCall[s.curcall] == DealtBefore(|s.irs|, K, s.curcall + 1)
  {
    DealtNext(|s.irs|, K, s.curcall);
    DealtAtMost(|s.irs|, K, s.curcall + 1);
  }

  /** After a call's convolutions every accumulating slot holds the sum it should. */
  lemma ConvolveAccumulates(s: State, s2: State, x: Stream, c: int, from: nat, d: nat)
    requires s.WellFormed() && s.curcall < MAX_PARTS && s2 == ConvolveStep(s)
    requires Accumulating(s, x, c, from) && s.input == Spectrum(s.t, s.partsize, x, c)
    requires from <= d <= |s.irs|
    ensures s2.bufs[Slot(s2.cur, d, s2.Ring())] == Partial(s2, x, c, d)
  {
    ConvolveSlots(s, s2, d);
    assert s.bufs[Slot(s.cur, d, s.Ring())] == Partial(s, x, c, d);
  }

  lemma ConvolveCycling(s: State, s2: State, x: Stream, n: nat, K: nat, c: int, from: nat)
    requires s.WellFormed() && 0 < K <= MAX_PARTS && s.curcall < K && s2 == ConvolveStep(s)
    requires Cycling(s, x, n, K, c, s.curcall, from)
    ensures s2 == s.(bufs := s2.bufs, curpart := DealtBefore(|s.irs|, K, s.curcall + 1))
    ensures Accumulating(s2, x, c, from)
    ensures s2.bufs[PrevSlot(s2)] == s.bufs[PrevSlot(s)]
    ensures s.curpart > 0 || |s.irs| == 0 ==> s2.bufs[s.cur] == s.bufs[s.cur]
  {
    NoClamp(s, K);
    NextIsSlot(s.cur, s.Ring());
    ConvolveSlots(s, s2, |s.irs| + 1);
    ConvolveSlots(s, s2, 0);
    forall d | from <= d <= |s.irs|
      ensures s2.bufs[Slot(s2.cur, d, s2.Ring())] == Partial(s2, x, c, d)
    {
      ConvolveAccumulates(s, s2, x, c, from, d);
    }
  }

  lemma AccumulateSilent(b: Buffer, z: Buffer, ir: Buffer, P: nat)
    requires |b| == |z| == |ir| == 2 * P + 2 && z == Zeros(2 * P + 2)
    ensures Accumulated(b, z, ir) == b
  {
    AccumulateSilence(b, ir);
  }

  /** Convolving silence leaves the ring as it was. */
  lemma ConvolveSilent(s: State, s2: State)
    requires s.WellFormed() && s.curcall < MAX_PARTS && s2 == ConvolveStep(s)
    requires s.input == Zeros(s.Padded())
    ensures forall d :: 0 <= d < s.Ring() ==> s2.bufs[Slot(s.cur, d, s.Ring())] == s.bufs[Slot(s.cur, d, s.Ring())]
    ensures s2.bufs[s.cur] == s.bufs[s.cur]
  {
    forall d | 0 <= d < s.Ring()
      ensures s2.bufs[Slot(s.cur, d, s.Ring())] == s.bufs[Slot(s.cur, d, s.Ring())]
    {
      ConvolveSlots(s, s2, d);
      if s.curpart <= d < EndPart(s) {
        AccumulateSilent(s.bufs[Slot(s.cur, d, s.Ring())], s.input, s.irs[d], s.partsize);
      }
    }
    assert Slot(s.cur, 0, s.Ring()) == s.cur;
  }

  lemma SomeDealt(parts: nat, K: nat, c: nat)
    requires 0 < K && 0 < c && 0 < parts
    ensures DealtBefore(parts, K, c) > 0
  {
    FirstShare(parts, K);
    if parts / K > 0 {
      assert c * (parts / K) >= c;
    }
  }

  /** What a call in cycle c leaves behind for its output loop. */
  ghost predicate Filling(s: State, x: Stream, n: nat, K: nat, c: int, calls: nat)
    requires s.WellFormed() && 0 < K <= MAX_PARTS
  {
    && s.blocksize == n
    && s.curcall == calls
    && WorkDealt(s, K)
    && s.curpart == DealtBefore(|s.irs|, K, calls + 1)
    && s.input == Spectrum(s.t, s.partsize, x, c)
    && ReadFrom(s, calls * n, s.partsize + calls * n)
    && Finished(s, x, s.bufs[PrevSlot(s)], c - 1)
    && Finished(s, x, s.bufs[s.cur], c)
    && Accumulating(s, x, c, 1)
  }

  /** In the first call the current slot is complete once the dealt partitions are in, and is transformed. */
  lemma FirstCall(s: State, s2: State, s3: State, x: Stream, n: nat, K: nat, c: int)
    requires s.WellFormed() && 0 < K <= MAX_PARTS && s.curcall == 0
    requires s2 == ConvolveStep(s) && s3 == InverseStep(s2)
    requires Cycling(s, x, n, K, c, 0, 0)
    ensures s3.WellFormed() && Filling(s3, x, n, K, c, 0)
  {
    ConvolveCycling(s, s2, x, n, K, c, 0);
    NextIsSlot(s.cur, s.Ring());
    assert s2.bufs[s.cur] == Tail(s.t, s.partsize, s.irs, x, c, 0) by {
      assert Slot(s2.cur, 0, s2.Ring()) == s.cur;
      assert s2.bufs[Slot(s2.cur, 0, s2.Ring())] == Partial(s2, x, c, 0);
      if |s.irs| > 0 {
        SomeDealt(|s.irs|, K, 1);
      }
    }
    forall d | 1 <= d <= |s.irs|
      ensures s3.bufs[Slot(s3.cur, d, s3.Ring())] == Partial(s3, x, c, d)
    {
      assert s2.bufs[Slot(s2.cur, d, s2.Ring())] == Partial(s2, x, c, d);
    }
  }

  lemma LaterCall(s: State, s2: State, x: Stream, n: nat, K: nat, c: int, calls: nat)
    requires s.WellFormed() && 0 < K <= MAX_PARTS && 0 < calls < K && s.curcall == calls
    requires s2 == ConvolveStep(s)
    requires Cycling(s, x, n, K, c, calls, 1) && Finished(s, x, s.bufs[s.cur], c)
    ensures InverseStep(s2) == s2 && s2.WellFormed() && Filling(s2, x, n, K, c, calls)
  {
    ConvolveCycling(s, s2, x, n, K, c, 1);
    if |s.irs| > 0 {
      SomeDealt(|s.irs|, K, calls);
    }
  }

  lemma OutputReads(s: State, n: nat, base: nat, i: nat, o: nat)
    requires s.WellFormed() && s.Readable(n) && i < n && base + n <= s.partsize && o == base + i
    requires ReadFrom(s, base, s.partsize + base)
    ensures OutputBlock(s, n)[i] == Mixed(s.bufs[s.cur][o], s.bufs[PrevSlot(s)][s.partsize + o], s.scale)
  {
  }

  lemma FinishedAt(s: State, x: Stream, b: Buffer, c: int, o: nat)
    requires s.WellFormed() && |b| == s.Padded() && Finished(s, x, b, c) && o < 2 * s.partsize
    ensures SizedIr(s.partsize, s.irs)
    ensures |s.t.inverse(Tail(s.t, s.partsize, s.irs, x, c, 0))| == s.Padded()
    ensures b[o] == s.t.inverse(Tail(s.t, s.partsize, s.irs, x, c, 0))[o]
  {
  }

  /** The finished current and previous slots, mixed, are the overlap-add of the cycle. */
  lemma FinishedMixed(s: State, x: Stream, h: seq<real>, c: int, o: nat, a: real, b: real)
    requires s.WellFormed() && o < s.partsize
    requires IsTransform(s.t, s.partsize) && Causal(x) && s.t.gain * s.scale == 1.0
    requires IrOf(s.t, s.partsize, h, s.irs)
    requires Finished(s, x, s.bufs[PrevSlot(s)], c - 1) && Finished(s, x, s.bufs[s.cur], c)
    requires a == s.bufs[s.cur][o] && b == s.bufs[PrevSlot(s)][s.partsize + o]
    ensures Mixed(a, b, s.scale) == OverlappedAt(x, h, s.partsize, |s.irs|, c, o)
  {
    FinishedAt(s, x, s.bufs[s.cur], c, o);
    FinishedAt(s, x, s.bufs[PrevSlot(s)], c - 1, s.partsize + o);
    MixedIsOverlapped(s.t, s.partsize, s.irs, x, h, c, o, a, b, s.scale);
  }

  lemma AdvanceCycling(s: State, x: Stream, n: nat, K: nat, c: int, calls: nat)
    requires s.WellFormed() && 0 < K <= MAX_PARTS && Filling(s, x, n, K, c, calls)
    ensures var s2 := Advance(s, n);
      s2.WellFormed() && Cycling(s2, x, n, K, c, calls + 1, 1) && Finished(s2, x, s2.bufs[s2.cur], c)
  {
    var s2 := Advance(s, n);
    NextIsSlot(s.cur, s.Ring());
    assert (calls + 1) * n == calls * n + n;
    forall d | 1 <= d <= |s.irs|
      ensures s2.bufs[Slot(s2.cur, d, s2.Ring())] == Partial(s2, x, c, d)
    {
      assert s.bufs[Slot(s.cur, d, s.Ring())] == Partial(s, x, c, d);
    }
  }
}
