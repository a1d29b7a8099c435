/**
 Linear-prediction lattice filters: the analysis filter of lpc~ turns a block into a residual, the
 synthesis filter of lpreson~ turns a residual back into the block. Both walk a chain of stages with one
 reflection coefficient each and keep one backward error per stage in memory, overwritten in place.
 */
module Lattice {
  import opened Samples

  // ---- One sample through the stages ----

  /** The forward error after i analysis stages. */
  function Forward(k: seq<real>, mem: seq<real>, v: real, i: nat): real
    requires i <= |k| <= |mem|
  {
    if i == 0 then v else Forward(k, mem, v, i - 1) + k[i - 1] * mem[i - 1]
  }

  /** The backward error after i analysis stages. */
  function Backward(k: seq<real>, mem: seq<real>, v: real, i: nat): real
    requires i <= |k| <= |mem|
  {
    if i == 0 then v else mem[i - 1] + k[i - 1] * Forward(k, mem, v, i - 1)
  }

  /** The memory after one analysis sample: stage i keeps the backward error that entered it. */
  function Analyzed(k: seq<real>, mem: seq<real>, v: real): (r: seq<real>)
    requires |mem| == |k|
    ensures |r| == |k|
  {
    seq(|k|, i requires 0 <= i < |k| => Backward(k, mem, v, i))
  }

  /** The forward error that synthesis recovers below stage j, from the residual r above the last stage. */
  function Downward(k: seq<real>, mem: seq<real>, r: real, j: nat): real
    requires j <= |k| <= |mem|
    decreases |k| - j
  {
    if j == |k| then r else Downward(k, mem, r, j + 1) - k[j] * mem[j]
  }

  /** The memory after one synthesis sample; it has one more cell than there are stages. */
  function Synthesized(k: seq<real>, mem: seq<real>, r: real): (s: seq<real>)
    requires |mem| == |k| + 1
    ensures |s| == |k| + 1
  {
    [Downward(k, mem, r, 0)] + seq(|k|, j requires 0 <= j < |k| => mem[j] + k[j] * Downward(k, mem, r, j))
  }

  // ---- Blocks ----

  function AnalysisMemory(k: seq<real>, mem: seq<real>, xs: seq<real>): (r: seq<real>)
    requires |mem| == |k|
    ensures |r| == |k|
  {
    if xs == [] then mem else Analyzed(k, AnalysisMemory(k, mem, xs[..|xs| - 1]), xs[|xs| - 1])
  }

  function Residual(k: seq<real>, mem: seq<real>, xs: seq<real>): (r: seq<real>)
    requires |mem| == |k|
    ensures |r| == |xs|
  {
    if xs == [] then []
    else
      var before := xs[..|xs| - 1];
      Residual(k, mem, before) + [Forward(k, AnalysisMemory(k, mem, before), xs[|xs| - 1], |k|)]
  }

  function SynthesisMemory(k: seq<real>, mem: seq<real>, rs: seq<real>): (r: seq<real>)
    requires |mem| == |k| + 1
    ensures |r| == |k| + 1
  {
    if rs == [] then mem else Synthesized(k, SynthesisMemory(k, mem, rs[..|rs| - 1]), rs[|rs| - 1])
  }

  function Resynthesis(k: seq<real>, mem: seq<real>, rs: seq<real>): (r: seq<real>)
    requires |mem| == |k| + 1
    ensures |r| == |rs|
  {
    if rs == [] then []
    else
      var before := rs[..|rs| - 1];
      Resynthesis(k, mem, before) + [Downward(k, SynthesisMemory(k, mem, before), rs[|rs| - 1], 0)]
  }

  // ---- The filters as the perform routines run them ----

  /** The inner analysis loop: one sample through all stages, overwriting the memory as it goes. */
  method AnalyzeSample(k: seq<real>, mem: array<real>, v: real) returns (di: real)
    requires mem.Length == |k|
    modifies mem
    ensures di == Forward(k, old(mem[..]), v, |k|) && mem[..] == Analyzed(k, old(mem[..]), v)
  {
    hide Forward, Backward;
    ghost var before, after := mem[..], Analyzed(k, mem[..], v);
    StageStart(k, before, v);
    var sav := v;
    di := v;
    for i := 0 to |k|
      invariant di == Forward(k, before, v, i) && sav == Backward(k, before, v, i)
      invariant forall j :: 0 <= j < i ==> mem[j] == after[j]
      invariant forall j :: i <= j < |k| ==> mem[j] == before[j]
    {
      assert mem[i] == before[i];
      StageNext(k, before, v, i, di, before[i]);
      var temp := mem[i] + k[i] * di;
      di := di + k[i] * mem[i];
      assert di == Forward(k, before, v, i + 1) && temp == Backward(k, before, v, i + 1);
      mem[i] := sav;
      assert mem[i] == after[i];
      sav := temp;
    }
  }

  lemma StageStart(k: seq<real>, mem: seq<real>, v: real)
    requires |k| <= |mem|
    ensures Forward(k, mem, v, 0) == Backward(k, mem, v, 0) == v
  {
  }

  lemma StageNext(k: seq<real>, mem: seq<real>, v: real, i: nat, di: real, cell: real)
    requires i < |k| == |mem| && di == Forward(k, mem, v, i) && cell == mem[i]
    ensures Forward(k, mem, v, i + 1) == di + k[i] * cell
    ensures Backward(k, mem, v, i + 1) == cell + k[i] * di
  {
  }

  /** The analysis loop. The residual may be written over the input block. */
  method Analyze(k: seq<real>, mem: array<real>, xs: array<real>, res: array<real>)
    requires mem.Length == |k| && xs.Length == res.Length && mem != xs && mem != res
    modifies mem, res
    ensures res[..] == Residual(k, old(mem[..]), old(xs[..]))
    ensures mem[..] == AnalysisMemory(k, old(mem[..]), old(xs[..]))
  {
    ghost var input, start := xs[..], mem[..];
    for g := 0 to xs.Length
      invariant res[..g] == Residual(k, start, input[..g])
      invariant mem[..] == AnalysisMemory(k, start, input[..g])
      invariant xs[g..] == input[g..]
    {
      assert input[..g + 1][..g] == input[..g];
      assert xs[g] == xs[g..][0] == input[g];
      res[g] := AnalyzeSample(k, mem, xs[g]);
      assert res[..g + 1] == res[..g] + [res[g]];
    }
    assert input[..xs.Length] == input && res[..xs.Length] == res[..];
  }

  /** The inner synthesis loop, from the last stage down. */
  method SynthesizeSample(k: seq<real>, mem: array<real>, r: real) returns (sri: real)
    requires mem.Length == |k| + 1
    modifies mem
    ensures sri == Downward(k, old(mem[..]), r, 0) && mem[..] == Synthesized(k, old(mem[..]), r)
  {
    hide Downward, Synthesized;
    ghost var before, after := mem[..], Synthesized(k, mem[..], r);
    var ord := |k|;
    DownwardStart(k, before, r);
    sri := r;
    for i := 0 to ord
      invariant sri == Downward(k, before, r, ord - i)
      invariant forall j :: 0 <= j <= ord - i ==> mem[j] == before[j]
      invariant forall j :: ord - i < j <= ord ==> mem[j] == after[j]
    {
      assert mem[ord - 1 - i] == before[ord - 1 - i];
      DownwardNext(k, before, r, ord - 1 - i, sri, before[ord - 1 - i]);
      sri := sri - k[ord - 1 - i] * mem[ord - 1 - i];
      SynthesizedNext(k, before, r, ord - 1 - i, sri, before[ord - 1 - i]);
      mem[ord - i] := mem[ord - 1 - i] + k[ord - 1 - i] * sri;
      assert mem[ord - i] == after[ord - i];
    }
    mem[0] := sri;
  }

  lemma DownwardStart(k: seq<real>, mem: seq<real>, r: real)
    requires |mem| == |k| + 1
    ensures Downward(k, mem, r, |k|) == r
    ensures Synthesized(k, mem, r)[0] == Downward(k, mem, r, 0)
  {
    hide Downward;
    DownwardTop(k, mem, r);
  }

  lemma DownwardTop(k: seq<real>, mem: seq<real>, r: real)
    requires |k| <= |mem|
    ensures Downward(k, mem, r, |k|) == r
  {
  }

  lemma DownwardNext(k: seq<real>, mem: seq<real>, r: real, j: nat, sri: real, cell: real)
    requires j < |k| <= |mem| && sri == Downward(k, mem, r, j + 1) && cell == mem[j]
    ensures Downward(k, mem, r, j) == sri - k[j] * cell
  {
  }

  lemma SynthesizedNext(k: seq<real>, mem: seq<real>, r: real, j: nat, sri: real, cell: real)
    requires j < |k| && |mem| == |k| + 1 && sri == Downward(k, mem, r, j) && cell == mem[j]
    ensures Synthesized(k, mem, r)[j + 1] == cell + k[j] * sri
  {
    hide Downward;
  }

  /** The synthesis loop. The output may be written over the residual. */
  method Synthesize(k: seq<real>, mem: array<real>, rs: array<real>, out: array<real>)
    requires mem.Length == |k| + 1 && rs.Length == out.Length && mem != rs && mem != out
    modifies mem, out
    ensures out[..] == Resynthesis(k, old(mem[..]), old(rs[..]))
    ensures mem[..] == SynthesisMemory(k, old(mem[..]), old(rs[..]))
  {
    ghost var input, start := rs[..], mem[..];
    for g := 0 to rs.Length
      invariant out[..g] == Resynthesis(k, start, input[..g])
      invariant mem[..] == SynthesisMemory(k, start, input[..g])
      invariant rs[g..] == input[g..]
    {
      assert input[..g + 1][..g] == input[..g];
      assert rs[g] == rs[g..][0] == input[g];
      out[g] := SynthesizeSample(k, mem, rs[g]);
      assert out[..g + 1] == out[..g] + [out[g]];
    }
    assert input[..rs.Length] == input && out[..rs.Length] == out[..];
  }

  // ---- The two undo each other ----

  /** Stage by stage, downward synthesis of an analysis residual meets the same forward errors. */
  lemma {:induction false} DownwardIsForward(k: seq<real>, mem: seq<real>, smem: seq<real>, v: real, j: nat)
    requires |mem| == |k| && |smem| == |k| + 1 && smem[..|k|] == mem && j <= |k|
    ensures Downward(k, smem, Forward(k, mem, v, |k|), j) == Forward(k, mem, v, j)
    decreases |k| - j
  {
    if j < |k| {
      DownwardIsForward(k, mem, smem, v, j + 1);
      assert smem[j] == mem[j];
    }
  }

  /** And analysis of a synthesis output climbs back to the residual. */
  lemma {:induction false} ForwardIsDownward(k: seq<real>, mem: seq<real>, smem: seq<real>, r: real, j: nat)
    requires |mem| == |k| && |smem| == |k| + 1 && smem[..|k|] == mem && j <= |k|
    ensures Forward(k, mem, Downward(k, smem, r, 0), j) == Downward(k, smem, r, j)
  {
    if j > 0 {
      ForwardIsDownward(k, mem, smem, r, j - 1);
      assert smem[j - 1] == mem[j - 1];
    }
  }

  /** One sample: the memories stay equal, whichever filter runs first. */
  lemma SampleMemories(k: seq<real>, mem: seq<real>, smem: seq<real>, v: real, r: real)
    requires |mem| == |k| && |smem| == |k| + 1 && smem[..|k|] == mem
    requires forall j :: 0 <= j <= |k| ==> Downward(k, smem, r, j) == Forward(k, mem, v, j)
    ensures Synthesized(k, smem, r)[..|k|] == Analyzed(k, mem, v)
  {
    var s, a := Synthesized(k, smem, r), Analyzed(k, mem, v);
    forall i | 0 <= i < |k|
      ensures s[i] == a[i]
    {
      if i == 0 {
        assert Downward(k, smem, r, 0) == Forward(k, mem, v, 0);
      } else {
        assert Downward(k, smem, r, i - 1) == Forward(k, mem, v, i - 1);
        assert smem[i - 1] == mem[i - 1];
      }
    }
  }

  /** Synthesis of the residual gives back the block, for every order, coefficient list and memory. */
  lemma {:induction false} SynthesisUndoesAnalysis(k: seq<real>, mem: seq<real>, smem: seq<real>, xs: seq<real>)
    requires |mem| == |k| && |smem| == |k| + 1 && smem[..|k|] == mem
    ensures Resynthesis(k, smem, Residual(k, mem, xs)) == xs
    ensures SynthesisMemory(k, smem, Residual(k, mem, xs))[..|k|] == AnalysisMemory(k, mem, xs)
  {
    if xs != [] {
      var n := |xs| - 1;
      var before, v, rs := xs[..n], xs[n], Residual(k, mem, xs);
      assert rs[..n] == Residual(k, mem, before);
      SynthesisUndoesAnalysis(k, mem, smem, before);
      var m, sm := AnalysisMemory(k, mem, before), SynthesisMemory(k, smem, rs[..n]);
      forall j | 0 <= j <= |k|
        ensures Downward(k, sm, rs[n], j) == Forward(k, m, v, j)
      {
        DownwardIsForward(k, m, sm, v, j);
      }
      SampleMemories(k, m, sm, v, rs[n]);
    }
  }

  /** Analysis of a synthesis output gives back the residual. */
  lemma {:induction false} AnalysisUndoesSynthesis(k: seq<real>, mem: seq<real>, smem: seq<real>, rs: seq<real>)
    requires |mem| == |k| && |smem| == |k| + 1 && smem[..|k|] == mem
    ensures Residual(k, mem, Resynthesis(k, smem, rs)) == rs
    ensures SynthesisMemory(k, smem, rs)[..|k|] == AnalysisMemory(k, mem, Resynthesis(k, smem, rs))
  {
    if rs != [] {
      var n := |rs| - 1;
      var before, r, xs := rs[..n], rs[n], Resynthesis(k, smem, rs);
      assert xs[..n] == Resynthesis(k, smem, before);
      AnalysisUndoesSynthesis(k, mem, smem, before);
      var m, sm := AnalysisMemory(k, mem, xs[..n]), SynthesisMemory(k, smem, before);
      forall j | 0 <= j <= |k|
        ensures Downward(k, sm, r, j) == Forward(k, m, xs[n], j)
      {
        ForwardIsDownward(k, m, sm, r, j);
      }
      SampleMemories(k, m, sm, xs[n], r);
    }
  }

  // ---- The objects, with the gate on the first coefficient ----

  /** lpc~ filters a block only when its first coefficient is not too close to zero. */
  predicate GateOpen(parcors: seq<real>) {
    |parcors| > 0 && (parcors[0] > 0.00001 || parcors[0] < -0.00001)
  }

  /** What lpc~ sends on: a coefficient list and a residual block. `last` is the list of the last filtered block. */
  datatype Frame = Frame(parcors: seq<real>, residual: seq<real>)

  method PerformLpc(parcors: seq<real>, last: seq<real>, xs: array<real>, res: array<real>) returns (sent: seq<real>)
    requires xs.Length == res.Length
    modifies res
    ensures Frame(sent, res[..]) == Sent(parcors, last, old(xs[..]))
  {
    var mem := new real[|parcors|](_ => 0.0);
    assert mem[..] == Zeros(|parcors|);
    if GateOpen(parcors) {
      sent := parcors;
      Analyze(parcors, mem, xs, res);
    } else {
      sent := last;
      for g := 0 to xs.Length
        invariant forall j :: 0 <= j < g ==> res[j] == 0.0
      {
        res[g] := 0.0;
      }
    }
  }

  function Sent(parcors: seq<real>, last: seq<real>, xs: seq<real>): Frame {
    if GateOpen(parcors) then Frame(parcors, Residual(parcors, Zeros(|parcors|), xs))
    else Frame(last, Zeros(|xs|))
  }

  method PerformLpreson(parcors: seq<real>, rs: array<real>, out: array<real>)
    requires rs.Length == out.Length
    modifies out
    ensures out[..] == Received(Frame(parcors, old(rs[..])))
  {
    var mem := new real[|parcors| + 1](_ => 0.0);
    assert mem[..] == Zeros(|parcors| + 1);
    Synthesize(parcors, mem, rs, out);
  }

  function Received(f: Frame): seq<real> {
    Resynthesis(f.parcors, Zeros(|f.parcors| + 1), f.residual)
  }

  lemma {:induction false} SilenceIsStable(k: seq<real>, n: nat)
    ensures Resynthesis(k, Zeros(|k| + 1), Zeros(n)) == Zeros(n)
    ensures SynthesisMemory(k, Zeros(|k| + 1), Zeros(n)) == Zeros(|k| + 1)
  {
    if n > 0 {
      SilenceIsStable(k, n - 1);
      assert Zeros(n)[..n - 1] == Zeros(n - 1);
      var s := Synthesized(k, Zeros(|k| + 1), 0.0);
      forall i | 0 <= i <= |k|
        ensures s[i] == 0.0
      {
        SilentStages(k, if i == 0 then 0 else i - 1);
      }
      assert s == Zeros(|k| + 1);
    }
  }

  lemma {:induction false} SilentStages(k: seq<real>, j: nat)
    requires j <= |k|
    ensures Downward(k, Zeros(|k| + 1), 0.0, j) == 0.0
    decreases |k| - j
  {
    if j < |k| {
      SilentStages(k, j + 1);
    }
  }

  /**
   Feeding lpc~ into lpreson~ gives back the block exactly when lpc~ filtered it, or when it was silent
   anyway: a block whose first coefficient falls inside the gate is dropped.
   */
  lemma RoundTrip(parcors: seq<real>, last: seq<real>, xs: seq<real>)
    ensures Received(Sent(parcors, last, xs)) == xs <==>
      (|parcors| > 0 && (parcors[0] > 0.00001 || parcors[0] < -0.00001)) || forall i :: 0 <= i < |xs| ==> xs[i] == 0.0
  {
    if GateOpen(parcors) {
      var mem, smem := Zeros(|parcors|), Zeros(|parcors| + 1);
      assert smem[..|parcors|] == mem;
      SynthesisUndoesAnalysis(parcors, mem, smem, xs);
    } else {
      SilenceIsStable(last, |xs|);
      assert Received(Sent(parcors, last, xs)) == Zeros(|xs|);
    }
  }

  /** A block that is lost: a single non-zero sample, whose correlation with its neighbours is zero. */
  lemma GateDropsBlock()
    ensures Received(Sent([0.0], [], [1.0])) == [0.0]
  {
    SilenceIsStable([], 1);
    assert Zeros(1) == [0.0];
  }
}
