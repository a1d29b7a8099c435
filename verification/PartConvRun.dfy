/** Whole runs of the partitioned convolver. */
module PartConvRun {
  import opened Samples
  import opened RealSums
  import opened Spectra
  import opened PartConvModel
  import opened Convolution
  import opened PartConvProof
  import opened Division

  /** The block of n samples that call m receives. */
  ghost function InputBlock(x: Stream, n: nat, m: nat): seq<real> {
    seq(n, i => x(m * n + i))
  }

  /** A call that completes a cycle's input, or any later call, leaves the ring filled for its output. */
  lemma FilledCycling(s: State, s1: State, x: Stream, n: nat, K: nat, c: int, calls: nat)
    requires s.WellFormed() && 0 < K <= MAX_PARTS && calls < K && s.curcall == calls
    requires s1 == InverseStep(ConvolveStep(s))
    requires Cycling(s, x, n, K, c, calls, if calls == 0 then 0 else 1)
    requires calls > 0 ==> Finished(s, x, s.bufs[s.cur], c)
    ensures s1.WellFormed() && Filling(s1, x, n, K, c, calls)
    ensures s1 == s.(bufs := s1.bufs, curpart := s1.curpart)
  {
    if calls == 0 {
      FirstCall(s, ConvolveStep(s), s1, x, n, K, c);
    } else {
      LaterCall(s, ConvolveStep(s), x, n, K, c, calls);
    }
  }

  /** A call before the first cycle only keeps silence. */
  lemma IdleCall(s: State, s1: State, n: nat, K: nat, r: nat)
    requires s.WellFormed() && 0 < K <= MAX_PARTS && Idle(s, n, K, r) && r + 1 < K
    requires Silent(s.t.inverse(Zeros(s.Padded())), s.partsize)
    requires s1 == InverseStep(ConvolveStep(s))
    ensures s1 == s.(bufs := s1.bufs, curpart := s1.curpart) && SilentRing(s1)
  {
    var s0 := ConvolveStep(s);
    ConvolveSilent(s, s0);
    forall d | 1 <= d < s.Ring()
      ensures s1.bufs[Slot(s1.cur, d, s1.Ring())] == Zeros(s.Padded())
    {
      assert s0.bufs[Slot(s.cur, d, s.Ring())] == Zeros(s.Padded());
    }
  }

  lemma IdleAdvance(s: State, n: nat, K: nat, r: nat)
    requires s.WellFormed() && 0 < K <= MAX_PARTS && SilentRing(s) && s.curcall == r
    requires ReadFrom(s, r * n, r * n) && (s.blocksize == n ==> WorkDealt(s, K))
    ensures Advance(s, n).WellFormed() && Idle(Advance(s, n), n, K, r + 1)
  {
    NextIsSlot(s.cur, s.Ring());
    assert (r + 1) * n == r * n + n;
  }

  lemma IdleOutput(s: State, n: nat, base: nat, i: nat)
    requires s.WellFormed() && s.Readable(n) && SilentRing(s) && ReadFrom(s, base, base)
    requires i < n && base + n <= s.partsize
    ensures OutputBlock(s, n)[i] == 0.0
  {
    NextIsSlot(s.cur, s.Ring());
    assert s.bufs[PrevSlot(s)] == s.bufs[Slot(s.cur, s.Ring() - 1, s.Ring())];
    assert s.bufs[PrevSlot(s)][base + i] == 0.0;
    assert s.bufs[s.cur][base + i] == 0.0;
    assert Mixed(0.0, 0.0, s.scale) == 0.0;
  }

  /** Gathering input changes nothing that the ring depends on. */
  lemma GatherKeeps(s: State, s1: State, x: Stream, h: seq<real>, n: nat, K: nat, C: nat, r: nat)
    requires Invariant(s, x, h, n, K, C, r)
    requires s1 == s.(inbuf := s1.inbuf, inbufpos := s1.inbufpos) && s1.WellFormed()
    ensures Fixed(s1, x, h, n, K)
    ensures C == 0 ==> Idle(s1, n, K, r)
    ensures C > 0 ==> Cycling(s1, x, n, K, C - 1, r + 1, 1) && Finished(s1, x, s1.bufs[s1.cur], C - 1)
  {
    if C > 0 {
      forall d | 1 <= d <= |s1.irs|
        ensures s1.bufs[Slot(s1.cur, d, s1.Ring())] == Partial(s1, x, C - 1, d)
      {
        assert s.bufs[Slot(s.cur, d, s.Ring())] == Partial(s, x, C - 1, d);
      }
    }
  }

  /** The last call of a gathering: a new cycle begins and its first block goes out. */
  lemma FullCall(s: State, s1: State, x: Stream, h: seq<real>, n: nat, K: nat, C: nat)
    requires s.WellFormed() && Fixed(s, x, h, n, K) && Gathered(s, x, s.partsize, C)
    requires n <= s.partsize && s.partsize / n == K
    requires C == 0 ==> Idle(s, n, K, K - 1)
    requires C > 0 ==> Cycling(s, x, n, K, C - 1, K, 1) && Finished(s, x, s.bufs[s.cur], C - 1)
    requires s1 == InverseStep(ConvolveStep(BeginCycle(s, n)))
    ensures s1.WellFormed() && Filling(s1, x, n, K, C, 0)
    ensures s1 == s.(inbufpos := 0, curcall := 0, curpart := s1.curpart, blocksize := n, perCall := s1.perCall,
                     input := s1.input, bufs := s1.bufs, cur := s1.cur, readpos := s1.readpos)
  {
    var s2 := BeginCycle(s, n);
    BeginStep(s, x, h, n, K, C, s2);
    BeginRing(s, n, s2, 0);
    FilledCycling(s2, s1, x, n, K, C, 0);
  }

  /** The output of a call in cycle c, calls into it. */
  lemma FillingOutput(s: State, x: Stream, h: seq<real>, n: nat, K: nat, c: nat, calls: nat, i: nat)
    requires Fixed(s, x, h, n, K) && s.Readable(n) && Filling(s, x, n, K, c, calls)
    requires calls < K && i < n
    ensures OutputBlock(s, n)[i] == OverlappedAt(x, h, s.partsize, |s.irs|, c, calls * n + i)
  {
    CallsBound(n, K, calls);
    var base := calls * n;
    OutputReads(s, n, base, i, base + i);
    FinishedMixed(s, x, h, c, base + i, s.bufs[s.cur][base + i], s.bufs[PrevSlot(s)][s.partsize + (base + i)]);
  }

  lemma FillingAdvances(s: State, x: Stream, h: seq<real>, n: nat, K: nat, C: nat, r: nat)
    requires Fixed(s, x, h, n, K) && C > 0 && r < K
    requires Filling(s, x, n, K, C - 1, r) && Gathered(s, x, r * n, C)
    ensures Invariant(Advance(s, n), x, h, n, K, C, r)
  {
    AdvanceCycling(s, x, n, K, C - 1, r);
  }

  /** What one call does to a state that satisfies the invariant: where it moves to, and what it outputs. */
  ghost predicate StepTo(s: State, out: seq<real>, x: Stream, h: seq<real>, n: nat, K: nat, C: nat, r: nat) {
    && Invariant(s, x, h, n, K, C, r)
    && |out| == n
    && forall i :: 0 <= i < n ==>
         out[i] == if C == 0 then 0.0 else OverlappedAt(x, h, s.partsize, |s.irs|, C - 1, r * n + i)
  }

  lemma FillingSteps(s: State, x: Stream, h: seq<real>, n: nat, K: nat, C: nat, r: nat)
    requires Fixed(s, x, h, n, K) && s.Readable(n) && C > 0 && r < K
    requires Filling(s, x, n, K, C - 1, r) && Gathered(s, x, r * n, C)
    ensures StepTo(Advance(s, n), OutputBlock(s, n), x, h, n, K, C, r)
  {
    FillingAdvances(s, x, h, n, K, C, r);
    forall i | 0 <= i < n
      ensures OutputBlock(s, n)[i] == OverlappedAt(x, h, s.partsize, |s.irs|, C - 1, r * n + i)
    {
      FillingOutput(s, x, h, n, K, C - 1, r, i);
    }
  }

  lemma StepFull(s0: State, s1: State, x: Stream, h: seq<real>, n: nat, K: nat, C: nat)
    requires s0.WellFormed() && Fixed(s0, x, h, n, K) && Gathered(s0, x, s0.partsize, C)
    requires n <= s0.partsize && s0.partsize / n == K
    requires C == 0 ==> Idle(s0, n, K, K - 1)
    requires C > 0 ==> Cycling(s0, x, n, K, C - 1, K, 1) && Finished(s0, x, s0.bufs[s0.cur], C - 1)
    requires s1 == InverseStep(ConvolveStep(BeginCycle(s0, n))) && s1.Readable(n)
    ensures StepTo(Advance(s1, n), OutputBlock(s1, n), x, h, n, K, C + 1, 0)
  {
    hide Cycling, Finished, Accumulating, Filling, Idle, SilentRing, IsTransform, IrOf, PartCount, OverlappedAt;
    FullCall(s0, s1, x, h, n, K, C);
    FillingSteps(s1, x, h, n, K, C + 1, 0);
  }

  lemma StepCycling(s0: State, s1: State, x: Stream, h: seq<real>, n: nat, K: nat, C: nat, r: nat)
    requires s0.WellFormed() && Fixed(s0, x, h, n, K) && C > 0 && r + 1 < K && s0.curcall == r + 1
    requires Gathered(s0, x, (r + 1) * n, C)
    requires Cycling(s0, x, n, K, C - 1, r + 1, 1) && Finished(s0, x, s0.bufs[s0.cur], C - 1)
    requires s1 == InverseStep(ConvolveStep(s0)) && s1.Readable(n)
    ensures StepTo(Advance(s1, n), OutputBlock(s1, n), x, h, n, K, C, r + 1)
  {
    hide Cycling, Finished, Accumulating, Filling, Idle, SilentRing, IsTransform, IrOf, PartCount, OverlappedAt;
    FilledCycling(s0, s1, x, n, K, C - 1, r + 1);
    FillingSteps(s1, x, h, n, K, C, r + 1);
  }

  lemma StepIdle(s0: State, s1: State, x: Stream, h: seq<real>, n: nat, K: nat, r: nat)
    requires s0.WellFormed() && Fixed(s0, x, h, n, K) && r + 1 < K
    requires Gathered(s0, x, (r + 1) * n, 0) && Idle(s0, n, K, r)
    requires s1 == InverseStep(ConvolveStep(s0)) && s1.Readable(n)
    ensures StepTo(Advance(s1, n), OutputBlock(s1, n), x, h, n, K, 0, r + 1)
  {
    hide Cycling, Finished, Accumulating, Filling, IrOf, PartCount, OverlappedAt;
    IdleCall(s0, s1, n, K, r);
    IdleAdvance(s1, n, K, r);
    CallsBound(n, K, r);
    forall i | 0 <= i < n
      ensures OutputBlock(s1, n)[i] == 0.0
    {
      IdleOutput(s1, n, r * n, i);
    }
  }

  /** Where the next call takes a run: one more call towards the next input block, or a new cycle. */
  function NextCycle(K: nat, C: nat, r: nat): nat { if r + 1 == K then C + 1 else C }

  function NextCall(K: nat, r: nat): nat { if r + 1 == K then 0 else r + 1 }

  /** Call r + 1 of a cycle has gathered its block, and done nothing else yet. */
  ghost predicate AfterGather(s: State, x: Stream, h: seq<real>, n: nat, K: nat, C: nat, r: nat) {
    && Fixed(s, x, h, n, K) && r < K && Gathered(s, x, r * n + n, C)
    && (C == 0 ==> Idle(s, n, K, r))
    && (C > 0 ==> Cycling(s, x, n, K, C - 1, r + 1, 1) && Finished(s, x, s.bufs[s.cur], C - 1))
  }

  /** The block is what the signal has from time t on. */
  ghost predicate Comes(block: seq<real>, x: Stream, t: int) {
    forall i :: 0 <= i < |block| ==> block[i] == x(t + i)
  }

  lemma GatherCall(s: State, x: Stream, h: seq<real>, n: nat, K: nat, C: nat, r: nat, block: seq<real>)
    requires Invariant(s, x, h, n, K, C, r) && s.Ready(n) && |block| == n
    requires Comes(block, x, C * s.partsize + r * n)
    ensures AfterGather(Gather(s, block), x, h, n, K, C, r)
  {
    hide Cycling, Finished, Idle, IsTransform, IrOf;
    GatherStep(s, x, block, r * n, C);
    GatherKeeps(s, Gather(s, block), x, h, n, K, C, r);
  }

  /** A call that completes a block begins a new cycle. */
  lemma StepBegins(s0: State, s1: State, x: Stream, h: seq<real>, n: nat, K: nat, C: nat, r: nat)
    requires AfterGather(s0, x, h, n, K, C, r) && r + 1 == K && n <= s0.partsize && s0.partsize / n == K
    requires s1 == InverseStep(ConvolveStep(BeginCycle(s0, n))) && s1.Readable(n)
    ensures StepTo(Advance(s1, n), OutputBlock(s1, n), x, h, n, K, C + 1, 0)
  {
    CallsBound(n, K, r);
    hide Cycling, Finished, Idle, IsTransform, IrOf, StepTo;
    StepFull(s0, s1, x, h, n, K, C);
  }

  /** Any other call goes on with the cycle, or waits for the first. */
  lemma StepGoesOn(s0: State, s1: State, x: Stream, h: seq<real>, n: nat, K: nat, C: nat, r: nat)
    requires AfterGather(s0, x, h, n, K, C, r) && r + 1 < K && s0.curcall < MAX_PARTS
    requires s1 == InverseStep(ConvolveStep(s0)) && s1.Readable(n)
    ensures StepTo(Advance(s1, n), OutputBlock(s1, n), x, h, n, K, C, r + 1)
  {
    CallsBound(n, K, r);
    hide Finished, IsTransform, IrOf, StepTo, Accumulating, WorkDealt, ReadFrom, SilentRing;
    if C > 0 {
      StepCycling(s0, s1, x, h, n, K, C, r);
    } else {
      StepIdle(s0, s1, x, h, n, K, r);
    }
  }

  /** When the input buffer is full: after the last call of a cycle. */
  lemma FullWhen(s0: State, x: Stream, h: seq<real>, n: nat, K: nat, C: nat, r: nat)
    requires AfterGather(s0, x, h, n, K, C, r)
    ensures s0.WellFormed() && n <= s0.partsize && s0.partsize / n == K && r < K
    ensures s0.inbufpos >= s0.partsize <==> r + 1 == K
    ensures r + 1 < K ==> s0.curcall < MAX_PARTS
  {
    hide Finished, IsTransform, IrOf, Accumulating, WorkDealt, ReadFrom, SilentRing;
    CallsBound(n, K, r);
    Quotient(s0.partsize, n, K);
  }

  /** One call keeps the invariant and outputs the right part of the overlap-add. */
  lemma Step(s: State, s0: State, s1: State, x: Stream, h: seq<real>, n: nat, K: nat, C: nat, r: nat, block: seq<real>)
    requires Invariant(s, x, h, n, K, C, r) && s.Ready(n) && |block| == n
    requires Comes(block, x, C * s.partsize + r * n)
    requires s0 == Gather(s, block) && s1 == Filled(s, block)
    ensures StepTo(Advance(s1, n), OutputBlock(s1, n), x, h, n, K, NextCycle(K, C, r), NextCall(K, r))
  {
    hide Invariant, AfterGather, StepTo, BeginCycle, ConvolveStep, InverseStep, OutputBlock, Advance, Gather, Comes;
    hide State.Ready, State.Readable, State.WellFormed;
    GatherCall(s, x, h, n, K, C, r, block);
    FullWhen(s0, x, h, n, K, C, r);
    if r + 1 == K {
      StepBegins(s0, s1, x, h, n, K, C, r);
    } else {
      StepGoesOn(s0, s1, x, h, n, K, C, r);
    }
  }

  // ---- Whole runs ----

  /** The state after m calls, each fed the next n samples of the signal. */
  ghost function Play(s: State, x: Stream, n: nat, m: nat): State
  {
    if m == 0 then s
    else
      var before := Play(s, x, n, m - 1);
      if before.Ready(n) then Performed(before, InputBlock(x, n, m - 1)).0 else before
  }

  /** The position in the signal of the block that call m = C*K + r gathers. */
  lemma BlockPosition(n: nat, K: nat, C: nat, r: nat, m: nat, P: nat)
    requires P == K * n && m == C * K + r
    ensures m * n == C * P + r * n
  {
    calc {
      m * n;
      (C * K + r) * n;
      C * K * n + r * n;
      C * (K * n) + r * n;
    }
  }

  lemma StepOn(s: State, x: Stream, h: seq<real>, n: nat, K: nat, C: nat, r: nat, m: nat, block: seq<real>)
    requires Invariant(s, x, h, n, K, C, r) && s.Ready(n) && m == C * K + r
    requires block == InputBlock(x, n, m)
    ensures Performed(s, block).0.partsize == s.partsize && Performed(s, block).0.irs == s.irs
    ensures StepTo(Performed(s, block).0, Performed(s, block).1, x, h, n, K, NextCycle(K, C, r), NextCall(K, r))
  {
    PerformedKeeps(s, block);
    InvariantSize(s, x, h, n, K, C, r);
    InputComes(x, n, K, C, r, m, s.partsize);
    hide Invariant, StepTo, Gather, Filled, InputBlock, Comes, Advance, OutputBlock, State.Ready, State.WellFormed;
    Step(s, Gather(s, block), Filled(s, block), x, h, n, K, C, r, block);
  }

  lemma PerformedKeeps(s: State, block: seq<real>)
    requires s.Ready(|block|)
    ensures Performed(s, block).0.partsize == s.partsize && Performed(s, block).0.irs == s.irs
  {
    hide State.Ready;
  }

  lemma InvariantSize(s: State, x: Stream, h: seq<real>, n: nat, K: nat, C: nat, r: nat)
    requires Invariant(s, x, h, n, K, C, r)
    ensures s.partsize == K * n && r < K
  {
    hide Idle, Cycling, Finished, Gathered, IsTransform, IrOf;
  }

  lemma InputComes(x: Stream, n: nat, K: nat, C: nat, r: nat, m: nat, P: nat)
    requires m == C * K + r && P == K * n
    ensures |InputBlock(x, n, m)| == n && Comes(InputBlock(x, n, m), x, C * P + r * n)
  {
    BlockPosition(n, K, C, r, m, P);
  }

  /** The invariant holds after every call of every run, and so every call is safe. */
  lemma {:induction false} PlayInvariant(s: State, x: Stream, h: seq<real>, n: nat, K: nat, C: nat, r: nat, m: nat)
    requires Invariant(s, x, h, n, K, 0, 0) && r < K && m == C * K + r
    ensures Invariant(Play(s, x, n, m), x, h, n, K, C, r) && Play(s, x, n, m).Ready(n)
    ensures Play(s, x, n, m).partsize == s.partsize && Play(s, x, n, m).irs == s.irs
    decreases m
  {
    hide Invariant, Performed, StepTo;
    if m == 0 {
      Multiples(K, C);
      InvariantReady(s, x, h, n, K, 0, 0);
    } else {
      var C', r' := if r > 0 then C else C - 1, if r > 0 then r - 1 else K - 1;
      PlayInvariant(s, x, h, n, K, C', r', m - 1);
      var before := Play(s, x, n, m - 1);
      var block := InputBlock(x, n, m - 1);
      StepOn(before, x, h, n, K, C', r', m - 1, block);
      StepKeeps(Performed(before, block).0, Performed(before, block).1, x, h, n, K, C, r);
      InvariantReady(Play(s, x, n, m), x, h, n, K, C, r);
    }
  }

  lemma StepKeeps(s: State, out: seq<real>, x: Stream, h: seq<real>, n: nat, K: nat, C: nat, r: nat)
    requires StepTo(s, out, x, h, n, K, C, r)
    ensures Invariant(s, x, h, n, K, C, r)
  {
  }

  /** The overlap-add of a call is the convolution, late by one partition less one block. */
  lemma DelayedOutput(x: Stream, h: seq<real>, n: nat, K: nat, P: nat, C: nat, r: nat, m: nat, i: nat)
    requires Causal(x) && P == K * n && 0 < n && i < n && r < K && m + 1 == C * K + r
    ensures (if C == 0 then 0.0 else OverlappedAt(x, h, P, PartCount(|h|, P), C - 1, r * n + i))
         == Linear(x, Used(h, P), m * n + i - (P - n))
  {
    hide Linear, PartCount, OverlappedAt, Used;
    CallsBound(n, K, r);
    BlockPosition(n, K, C, r, m + 1, P);
    assert (m + 1) * n == m * n + n;
    if C == 0 {
      LinearBeforeStart(x, Used(h, P), m * n + i - (P - n));
    } else {
      PartitionedIsLinear(x, h, P, C - 1, r * n + i);
      assert (C - 1) * P == C * P - P;
    }
  }

  lemma StepOutput(s: State, out: seq<real>, x: Stream, h: seq<real>, n: nat, K: nat, C: nat, r: nat, m: nat, i: nat)
    requires StepTo(s, out, x, h, n, K, C, r) && m + 1 == C * K + r && i < n
    ensures |out| == n && out[i] == Linear(x, Used(h, s.partsize), m * n + i - (s.partsize - n))
  {
    hide Linear, PartCount, OverlappedAt, Used, Cycling, Idle, Finished, IsTransform, Gathered;
    DelayedOutput(x, h, n, K, s.partsize, C, r, m, i);
  }

  lemma NextCount(K: nat, C: nat, r: nat)
    requires r < K
    ensures NextCycle(K, C, r) * K + NextCall(K, r) == C * K + r + 1
  {
  }

  /**
   Every run computes the convolution: output sample i of call m, which is sample m*n + i of the output
   stream, is sample m*n + i - (P - n) of the convolution of the input stream with the response.
   */
  lemma RunIsConvolution(s: State, x: Stream, h: seq<real>, n: nat, K: nat, m: nat, i: nat)
    requires 0 < K && Invariant(s, x, h, n, K, 0, 0) && i < n
    ensures Play(s, x, n, m).Ready(n)
    ensures Performed(Play(s, x, n, m), InputBlock(x, n, m)).1[i]
         == Linear(x, Used(h, s.partsize), m * n + i - (s.partsize - n))
  {
    hide Performed, Linear, Used, Invariant, StepTo, Play;
    var C, r := m / K, m % K;
    PlayInvariant(s, x, h, n, K, C, r, m);
    var before, block := Play(s, x, n, m), InputBlock(x, n, m);
    StepOn(before, x, h, n, K, C, r, m, block);
    NextCount(K, C, r);
    StepOutput(Performed(before, block).0, Performed(before, block).1, x, h, n, K, NextCycle(K, C, r), NextCall(K, r),
      m, i);
  }

  // ---- The first state ----

  /** A freshly prepared object: spectra in place, every buffer silent, the work dealt for some block size. */
  ghost function Start(t: Transform, P: nat, scale: real, h: seq<real>, blocksize: nat): State
    requires P > 0 && 0 < blocksize <= P && P / blocksize <= MAX_PARTS
  {
    var parts := PartCount(|h|, P);
    Positive(P, blocksize);
    State(t, P, scale,
      seq(parts, p requires 0 <= p < parts => t.forward(PaddedTo2(Partition(h, P, p)))),
      Zeros(P), 0, Zeros(2 * P + 2),
      seq(parts + 2, b => Zeros(2 * P + 2)), seq(parts + 2, b => 0), 0,
      blocksize, Dealt(seq(MAX_PARTS, c => 0), parts, P / blocksize), 0, 0)
  }

  lemma StartShape(s: State, t: Transform, P: nat, scale: real, h: seq<real>, blocksize: nat)
    requires 0 < blocksize <= P && P / blocksize <= MAX_PARTS
    requires s == Start(t, P, scale, h, blocksize) && Sized(t, P)
    ensures s.WellFormed() && SilentRing(s) && ReadFrom(s, 0, 0) && s.bufs[s.cur] == Zeros(s.Padded())
    ensures |s.irs| == PartCount(|h|, P) && IrOf(t, P, h, s.irs)
    ensures s.t == t && s.partsize == P && s.scale == scale && s.inbufpos == 0 && s.curcall == 0 && s.blocksize
      == blocksize
  {
    assert |s.irs| == PartCount(|h|, P) <= MAX_PARTS;
    assert forall b :: 0 <= b < s.Ring() ==> s.bufs[b] == Zeros(2 * P + 2);
    assert forall p :: 0 <= p < |s.irs| ==> |PaddedTo2(Partition(h, P, p))| == 2 * P;
    assert s.WellFormed();
  }

  lemma StartInvariant(s: State, t: Transform, P: nat, scale: real, h: seq<real>, blocksize: nat, x: Stream, n: nat,
      K: nat)
    requires 0 < blocksize <= P && P / blocksize <= MAX_PARTS
    requires s == Start(t, P, scale, h, blocksize)
    requires 0 < n && 0 < K <= MAX_PARTS && P == K * n
    requires IsTransform(t, P) && t.gain * scale == 1.0 && Causal(x)
    ensures Invariant(s, x, h, n, K, 0, 0)
  {
    StartShape(s, t, P, scale, h, blocksize);
    Quotient(P, n, K);
    hide Linear, PartCount, SilentRing, IrOf;
    assert Fixed(s, x, h, n, K);
    assert WorkDealt(s, P / blocksize);
    assert 0 * n == 0;
  }

  /** Put together: a prepared object, called block by block, outputs the delayed convolution. */
  lemma PartitionedConvolution(s: State, t: Transform, P: nat, scale: real, h: seq<real>, blocksize: nat, x: Stream,
      n: nat, K: nat, m: nat, i: nat)
    requires 0 < blocksize <= P && P / blocksize <= MAX_PARTS
    requires s == Start(t, P, scale, h, blocksize)
    requires 0 < n && 0 < K <= MAX_PARTS && P == K * n && i < n
    requires IsTransform(t, P) && t.gain * scale == 1.0 && Causal(x)
    ensures Play(s, x, n, m).Ready(n)
    ensures Performed(Play(s, x, n, m), InputBlock(x, n, m)).1[i] == Linear(x, Used(h, P), m * n + i - (P - n))
  {
    hide Invariant, Performed, Linear, Used, Play, IsTransform;
    StartInvariant(s, t, P, scale, h, blocksize, x, n, K);
    RunIsConvolution(s, x, h, n, K, m, i);
  }
}
