/** The convolver object: in-place buffers, pointers into a ring of accumulators, work dealt over calls. */
module PartConv {
  import opened Samples
  import opened Spectra
  import opened PartConvModel
  import opened Convolution
  import opened PartConvProof
  import opened PartConvRun
  import opened Division

  /** Deal `parts` partitions round robin over the calls of a cycle, like cards. */
  method DealWork(perCall: array<nat>, parts: nat, calls: nat)
    requires 0 < calls <= perCall.Length
    modifies perCall
    ensures perCall[..] == Dealt(old(perCall[..]), parts, calls)
  {
    for j := 0 to calls
      invariant forall c :: 0 <= c < j ==> perCall[c] == 0
      invariant forall c :: j <= c < perCall.Length ==> perCall[c] == old(perCall[c])
    {
      perCall[j] := 0;
    }
    var i: nat, left: nat := 0, parts;
    ShareZero(calls);
    hide Share;
    while left > 0
      invariant left <= parts && i == (parts - left) % calls
      invariant forall c :: 0 <= c < calls ==> perCall[c] == Share(parts - left, calls, c)
      invariant forall c :: calls <= c < perCall.Length ==> perCall[c] == old(perCall[c])
    {
      ShareNext(parts - left, calls);
      perCall[i] := perCall[i] + 1;
      left := left - 1;
      i := (i + 1) % calls;
    }
    assert parts - left == parts;
  }

  lemma ShareZero(calls: nat)
    requires calls > 0
    ensures 0 % calls == 0 && forall c :: 0 <= c < calls ==> Share(0, calls, c) == 0
  {
    Divided(0, calls, 0, 0);
  }

  /** Dealing one more card changes one share. */
  lemma ShareNext(d: nat, calls: nat)
    requires calls > 0
    ensures (d + 1) % calls == (d % calls + 1) % calls
    ensures forall c :: 0 <= c < calls ==>
              Share(d + 1, calls, c) == Share(d, calls, c) + (if c == d % calls then 1 else 0)
  {
    NextRemainder(d, calls);
    if d % calls + 1 == calls {
      WrappedRemainder(calls, calls);
    } else {
      SmallRemainder(d % calls + 1, calls);
    }
  }

  /** The bin loop: multiply two spectra and add the products to an accumulator, in place. */
  method MultiplyAdd(sum: array<real>, a: array<real>, b: array<real>, bins: nat)
    requires sum.Length == a.Length == b.Length == 2 * bins
    requires sum != a && sum != b
    modifies sum
    ensures sum[..] == Accumulated(old(sum[..]), a[..], b[..])
  {
    hide ProductAt;
    for k := 0 to bins
      invariant forall i :: 0 <= i < 2 * k ==> sum[i] == old(sum[i]) + ProductAt(a[..], b[..], i)
      invariant forall i :: 2 * k <= i < 2 * bins ==> sum[i] == old(sum[i])
    {
      var re := a[2 * k] * b[2 * k] - a[2 * k + 1] * b[2 * k + 1];
      var im := a[2 * k] * b[2 * k + 1] + a[2 * k + 1] * b[2 * k];
      ProductOfBin(a[..], b[..], k, re, im);
      sum[2 * k] := sum[2 * k] + re;
      sum[2 * k + 1] := sum[2 * k + 1] + im;
    }
  }

  lemma ProductOfBin(a: seq<real>, b: seq<real>, k: nat, re: real, im: real)
    requires |a| == |b| && 2 * k + 1 < |a| && |a| % 2 == 0
    requires re == a[2 * k] * b[2 * k] - a[2 * k + 1] * b[2 * k + 1]
    requires im == a[2 * k] * b[2 * k + 1] + a[2 * k + 1] * b[2 * k]
    ensures ProductAt(a, b, 2 * k) == re && ProductAt(a, b, 2 * k + 1) == im
  {
  }

  ghost function Contents(arrays: seq<array<real>>): (r: seq<Buffer>)
    reads arrays
    ensures |r| == |arrays|
  {
    seq(|arrays|, i requires 0 <= i < |arrays| reads arrays => arrays[i][..])
  }

  /** What preparing the input changes. */
  lemma PreparedIs(s: State, n: nat, s2: State)
    requires s.WellFormed() && 0 < n <= s.partsize && s.partsize / n <= MAX_PARTS && s.partsize / n > 0
    requires s2 == s.(blocksize := n, perCall := s2.perCall, inbufpos := 0, curcall := 0, curpart := 0,
                      input := s.t.forward(s.inbuf + Zeros(s.partsize)))
    requires s.blocksize == n ==> s2.perCall == s.perCall
    requires s.blocksize != n ==> s2.perCall == Dealt(s.perCall, |s.irs|, s.partsize / n)
    ensures s2 == Prepared(s, n)
  {
  }

  /** An in-place transform: the buffer is overwritten with a function of what it held. */
  method Overwrite(buf: array<real>, result: Buffer)
    requires |result| == buf.Length
    modifies buf
    ensures buf[..] == result
  {
    forall i | 0 <= i < buf.Length {
      buf[i] := result[i];
    }
  }

  /** One partition of the impulse response, padded with zeros; pos is where reading the response has got to. */
  method FillPartition(h: seq<real>, P: nat, p: nat, pos: nat) returns (buf: array<real>, next: nat)
    requires pos == Min(p * P, |h|)
    ensures fresh(buf) && buf.Length == 2 * P + 2
    ensures buf[..2 * P] == PaddedTo2(Partition(h, P, p))
    ensures next == Min((p + 1) * P, |h|)
  {
    buf := new real[2 * P + 2];
    var j: nat := 0;
    next := pos;
    assert (p + 1) * P == p * P + P;
    while j < P && next < |h|
      invariant j <= P && next == Min(p * P + j, |h|)
      invariant forall k :: 0 <= k < j ==> buf[k] == At(h, p * P + k)
    {
      buf[j] := h[next];
      j := j + 1;
      next := next + 1;
    }
    ghost var filled := j;
    while j < buf.Length
      invariant filled <= j <= buf.Length
      invariant forall k :: 0 <= k < filled ==> buf[k] == At(h, p * P + k)
      invariant forall k :: filled <= k < j ==> buf[k] == 0.0
    {
      buf[j] := 0.0;
      j := j + 1;
    }
    assert forall k :: 0 <= k < P ==> buf[k] == At(h, p * P + k);
  }

  /** The spectra of all partitions of the impulse response. */
  method PrepareResponse(t: Transform, h: seq<real>, P: nat, parts: nat) returns (irs: seq<array<real>>)
    requires Sized(t, P)
    ensures |irs| == parts
    ensures forall i :: 0 <= i < parts ==> fresh(irs[i]) && irs[i][..] == t.forward(PaddedTo2(Partition(h, P, i)))
  {
    irs := [];
    var pos: nat := 0;
    for i := 0 to parts
      invariant |irs| == i && pos == Min(i * P, |h|)
      invariant forall k :: 0 <= k < i ==> fresh(irs[k]) && irs[k][..] == t.forward(PaddedTo2(Partition(h, P, k)))
    {
      var buf;
      buf, pos := FillPartition(h, P, i, pos);
      Overwrite(buf, t.forward(buf[..2 * P]));
      irs := irs + [buf];
    }
  }

  method SilentBuffers(count: nat, size: nat) returns (bufs: seq<array<real>>)
    ensures |bufs| == count
    ensures forall i :: 0 <= i < count ==> fresh(bufs[i]) && bufs[i][..] == Zeros(size)
    ensures forall i, j :: 0 <= i < j < count ==> bufs[i] != bufs[j]
  {
    bufs := [];
    for i := 0 to count
      invariant |bufs| == i
      invariant forall k :: 0 <= k < i ==> fresh(bufs[k]) && bufs[k][..] == Zeros(size)
      invariant forall k, l :: 0 <= k < l < i ==> bufs[k] != bufs[l]
    {
      var buf := new real[size](_ => 0.0);
      assert buf[..] == Zeros(size);
      bufs := bufs + [buf];
    }
  }

  class Convolver {
    const t: Transform
    const partsize: nat
    const scale: real
    var irs: seq<array<real>>
    var inbuf: array<real>
    var inbufpos: nat
    var input: array<real>
    var sums: seq<array<real>>
    var readpos: array<nat>
    var cur: nat
    var blocksize: nat
    var perCall: array<nat>
    var curcall: nat
    var curpart: nat

    ghost function Model(): State
      reads this, inbuf, input, readpos, perCall, irs, sums
    {
      State(t, partsize, scale, Contents(irs), inbuf[..], inbufpos, input[..], Contents(sums), readpos[..], cur,
            blocksize, perCall[..], curcall, curpart)
    }

    /** Every buffer has its size and no two share memory. */
    ghost predicate Separate()
      reads this
    {
      && input.Length == 2 * partsize + 2
      && (forall i :: 0 <= i < |sums| ==> sums[i].Length == 2 * partsize + 2)
      && (forall i :: 0 <= i < |irs| ==> irs[i].Length == 2 * partsize + 2)
      && inbuf != input
      && inbuf !in sums && input !in sums && inbuf !in irs && input !in irs
      && (forall i, j :: 0 <= i < |sums| && 0 <= j < |irs| ==> sums[i] != irs[j])
      && (forall i, j :: 0 <= i < j < |sums| ==> sums[i] != sums[j])
    }

    ghost predicate Valid()
      reads this, inbuf, input, readpos, perCall, irs, sums
    {
      Separate() && readpos != perCall && Model().WellFormed()
    }

    /** A new object; nothing is prepared until an impulse response is set. */
    constructor (t: Transform, partsize: nat, blocksize: nat)
      requires partsize > 0
      ensures this.t == t && this.partsize == partsize && this.blocksize == blocksize
      ensures scale == 1.0 / (2 * partsize) as real
    {
      this.t := t;
      this.partsize := partsize;
      this.blocksize := blocksize;
      scale := 1.0 / (2 * partsize) as real;
      irs, sums := [], [];
      inbuf, input, readpos, perCall := new real[0], new real[0], new nat[0], new nat[0];
    }

    method SetBuffers(h: seq<real>, parts: nat)
      requires Sized(t, partsize)
      modifies this`irs, this`sums, this`inbuf, this`input
      ensures Separate() && fresh(inbuf) && fresh(input) && forall b :: b in sums || b in irs ==> fresh(b)
      ensures inbuf[..] == Zeros(partsize) && input[..] == Zeros(2 * partsize + 2)
      ensures |irs| == parts && |sums| == parts + 2
      ensures forall i :: 0 <= i < parts ==> irs[i][..] == t.forward(PaddedTo2(Partition(h, partsize, i)))
      ensures forall i :: 0 <= i < parts + 2 ==> sums[i][..] == Zeros(2 * partsize + 2)
    {
      hide Partition, PaddedTo2;
      irs := PrepareResponse(t, h, partsize, parts);
      assert forall i :: 0 <= i < parts ==> irs[i].Length == |irs[i][..]|;
      inbuf := new real[partsize](_ => 0.0);
      input := new real[2 * partsize + 2](_ => 0.0);
      sums := SilentBuffers(parts + 2, 2 * partsize + 2);
      assert forall i :: 0 <= i < parts + 2 ==> sums[i].Length == |sums[i][..]|;
    }

    method SetSchedule(parts: nat)
      requires 0 < blocksize <= partsize && partsize / blocksize <= MAX_PARTS
      modifies this`readpos, this`perCall, this`inbufpos, this`cur, this`curcall, this`curpart
      ensures fresh(readpos) && fresh(perCall) && readpos != perCall
      ensures inbufpos == cur == curcall == curpart == 0
      ensures readpos[..] == seq(parts + 2, b => 0)
      ensures partsize / blocksize > 0
      ensures perCall[..] == Dealt(seq(MAX_PARTS, c => 0), parts, partsize / blocksize)
    {
      inbufpos, cur, curcall, curpart := 0, 0, 0, 0;
      readpos := new nat[parts + 2](_ => 0);
      perCall := new nat[MAX_PARTS](_ => 0);
      Positive(partsize, blocksize);
      assert perCall[..] == seq(MAX_PARTS, c => 0);
      DealWork(perCall, parts, partsize / blocksize);
    }

    /** Prepare the object for an impulse response. */
    method Set(h: seq<real>)
      requires 0 < blocksize <= partsize && partsize / blocksize <= MAX_PARTS
      requires Sized(t, partsize)
      modifies this
      ensures Valid() && blocksize == old(blocksize)
      ensures fresh(inbuf) && fresh(input) && fresh(readpos) && fresh(perCall)
      ensures forall b :: b in sums || b in irs ==> fresh(b)
      ensures Model() == Start(t, partsize, scale, h, blocksize)
    {
      hide Partition, PaddedTo2, Dealt;
      var parts := PartCount(|h|, partsize);
      SetBuffers(h, parts);
      SetSchedule(parts);
      ghost var start := Start(t, partsize, scale, h, blocksize);
      assert Contents(irs) == start.irs;
      assert Contents(sums) == start.bufs;
      assert Model() == start;
      StartShape(start, t, partsize, scale, h, blocksize);
    }

    /** Gather one block of input. */
    method GatherBlock(block: seq<real>)
      requires Valid() && Model().Ready(|block|)
      modifies this`inbufpos, inbuf
      ensures Valid() && Model() == Gather(old(Model()), block)
    {
      assert inbufpos + |block| <= inbuf.Length;
      hide State.Ready;
      forall i | 0 <= i < |block| {
        inbuf[inbufpos + i] := block[i];
      }
      inbufpos := inbufpos + |block|;
      assert inbuf[..] == Gather(old(Model()), block).inbuf;
      assert Contents(irs) == old(Contents(irs));
      assert Contents(sums) == old(Contents(sums));
    }

    /** Convolve the partitions dealt to this call, each into its own accumulator. */
    method Convolve()
      requires Valid() && curcall < MAX_PARTS
      modifies this`curpart, sums
      ensures Valid() && Model() == ConvolveStep(old(Model()))
    {
      var endpart := Min(curpart + perCall[curcall], |irs|);
      ghost var before := Model();
      assert before.WellFormed() && endpart == EndPart(before);
      ConvolveLoop(endpart);
      curpart := endpart;
      assert Model() == before.(bufs := Contents(sums), curpart := endpart);
    }

    method ConvolveLoop(endpart: nat)
      requires Separate() && curpart <= endpart <= |irs| && |sums| == |irs| + 2
      modifies sums
      ensures Contents(irs) == old(Contents(irs))
      ensures Contents(sums) == Convolved(old(Contents(sums)), cur, old(input[..]), old(Contents(irs)), curpart,
        endpart)
    {
      hide Accumulated, Convolved;
      ghost var bufs, spectra, x := Contents(sums), Contents(irs), input[..];
      ConvolvedNone(bufs, cur, x, spectra, curpart);
      var p := curpart;
      while p < endpart
        invariant curpart <= p <= endpart
        invariant Contents(irs) == spectra && input[..] == x && |Contents(sums)| == |sums|
        invariant Contents(sums) == Convolved(bufs, cur, x, spectra, curpart, p)
      {
        MultiplyPartition(p, bufs);
        p := p + 1;
      }
    }

    /** Partition p goes to the accumulator p places after the current one. */
    method MultiplyPartition(p: nat, ghost bufs: seq<Buffer>)
      requires Separate() && curpart <= p < |irs| && |sums| == |irs| + 2 == |bufs|
      requires forall b :: 0 <= b < |bufs| ==> |bufs[b]| == input.Length
      requires Contents(sums) == Convolved(bufs, cur, input[..], Contents(irs), curpart, p)
      modifies sums
      ensures Contents(irs) == old(Contents(irs)) && input[..] == old(input[..])
      ensures Contents(sums) == Convolved(bufs, cur, input[..], Contents(irs), curpart, p + 1)
    {
      hide Accumulated, Convolved;
      ConvolvedNext(bufs, cur, input[..], Contents(irs), curpart, p);
      MultiplyInto((cur + p) % |sums|, p);
    }

    method MultiplyInto(i: nat, p: nat)
      requires Separate() && i < |sums| && p < |irs|
      modifies sums[i]
      ensures Contents(sums) == old(Contents(sums))[i := Accumulated(old(sums[i][..]), input[..], irs[p][..])]
      ensures Contents(irs) == old(Contents(irs)) && input[..] == old(input[..])
    {
      MultiplyAdd(sums[i], input, irs[p], partsize + 1);
      assert forall j :: 0 <= j < |sums| && j != i ==> sums[j][..] == old(sums[j][..]);
      assert forall j :: 0 <= j < |irs| ==> irs[j][..] == old(irs[j][..]);
    }

    /** Fill the transform buffer with the gathered block, pad it with zeros, and transform it in place. */
    method TransformInput()
      requires Separate() && inbuf.Length == partsize && Sized(t, partsize)
      modifies input
      ensures input[..] == t.forward(PaddedTo2(inbuf[..]))
      ensures Contents(irs) == old(Contents(irs)) && Contents(sums) == old(Contents(sums))
    {
      forall i | 0 <= i < partsize {
        input[i] := inbuf[i];
      }
      forall i | partsize <= i < 2 * partsize + 2 {
        input[i] := 0.0;
      }
      assert input[..2 * partsize] == PaddedTo2(inbuf[..]);
      Overwrite(input, t.forward(input[..2 * partsize]));
      assert forall j :: 0 <= j < |sums| ==> sums[j][..] == old(sums[j][..]);
      assert forall j :: 0 <= j < |irs| ==> irs[j][..] == old(irs[j][..]);
    }

    method ClearSum(i: nat)
      requires Separate() && i < |sums|
      modifies sums[i]
      ensures Contents(sums) == old(Contents(sums))[i := Zeros(2 * partsize + 2)]
      ensures Contents(irs) == old(Contents(irs)) && input[..] == old(input[..])
    {
      Overwrite(sums[i], Zeros(2 * partsize + 2));
      assert forall j :: 0 <= j < |sums| && j != i ==> sums[j][..] == old(sums[j][..]);
      assert forall j :: 0 <= j < |irs| ==> irs[j][..] == old(irs[j][..]);
    }

    /** Deal the work again if the block size changed. */
    method Redeal(n: nat)
      requires perCall.Length == MAX_PARTS && 0 < n <= partsize && partsize / n <= MAX_PARTS
      modifies this`blocksize, perCall
      ensures blocksize == n && (old(blocksize) == n ==> perCall[..] == old(perCall[..]))
      ensures partsize / n > 0
      ensures old(blocksize) != n ==> perCall[..] == Dealt(old(perCall[..]), |irs|, partsize / n)
    {
      Positive(partsize, n);
      if blocksize != n {
        blocksize := n;
        DealWork(perCall, |irs|, partsize / n);
      }
    }

    /** Advance the ring pointers; the accumulator that comes free was read out completely. */
    method TurnRing()
      requires Separate() && |sums| == readpos.Length >= 2 && cur < |sums|
      modifies this`cur, readpos, sums
      ensures cur == Next(old(cur), |sums|)
      ensures readpos[..] == old(readpos[..])[cur := 0][Prev(cur, |sums|) := partsize]
      ensures Contents(sums) == old(Contents(sums))[Prev(old(cur), |sums|) := Zeros(2 * partsize + 2)]
      ensures Contents(irs) == old(Contents(irs)) && input[..] == old(input[..])
    {
      ClearSum(Prev(cur, |sums|));
      cur := Next(cur, |sums|);
      readpos[cur] := 0;
      readpos[Prev(cur, |sums|)] := partsize;
    }

    /** The work for the new cycle is dealt, and counting begins anew. */
    method RestartCounters(n: nat)
      requires Valid() && 0 < n <= partsize && partsize / n <= MAX_PARTS
      modifies this`inbufpos, this`curcall, this`curpart, this`blocksize, perCall
      ensures Separate() && readpos != perCall && partsize / n > 0
      ensures var s := old(Model());
        Model() == s.(blocksize := n, inbufpos := 0, curcall := 0, curpart := 0,
                      perCall := if s.blocksize == n then s.perCall else Dealt(s.perCall, |s.irs|, s.partsize / n))
    {
      hide Dealt;
      Redeal(n);
      inbufpos := 0;
      curcall := 0;
      curpart := 0;
      assert Contents(irs) == old(Contents(irs)) && Contents(sums) == old(Contents(sums));
    }

    method PrepareInput(n: nat)
      requires Valid() && 0 < n <= partsize && partsize / n <= MAX_PARTS
      modifies this`inbufpos, this`curcall, this`curpart, this`blocksize, perCall, input
      ensures Valid() && Model() == Prepared(old(Model()), n)
    {
      ghost var before := Model();
      hide Dealt, Prepared;
      RestartCounters(n);
      TransformInput();
      PreparedIs(before, n, Model());
    }

    /** The input buffer is full: a new cycle begins. */
    method StartCycle(n: nat)
      requires Valid() && 0 < n <= partsize && partsize / n <= MAX_PARTS
      modifies this`inbufpos, this`curcall, this`curpart, this`blocksize, this`cur, perCall, input, readpos, sums
      ensures Valid() && Model() == BeginCycle(old(Model()), n)
    {
      PrepareInput(n);
      ghost var before := Model();
      TurnRing();
      assert Model() == Turned(before);
    }

    /** In the first call of a cycle the current accumulator is transformed back, in place. */
    method InverseCurrent()
      requires Valid()
      modifies sums
      ensures Valid() && Model() == InverseStep(old(Model()))
    {
      ghost var before := Model();
      if curcall == 0 {
        InverseSum(cur);
        assert Model() == InverseStep(before);
      }
    }

    method InverseSum(i: nat)
      requires Separate() && Sized(t, partsize) && i < |sums|
      modifies sums[i]
      ensures Contents(sums) == old(Contents(sums))[i := t.inverse(old(sums[i][..]))]
      ensures Contents(irs) == old(Contents(irs)) && input[..] == old(input[..])
    {
      Overwrite(sums[i], t.inverse(sums[i][..]));
      assert forall j :: 0 <= j < |sums| && j != i ==> sums[j][..] == old(sums[j][..]);
      assert forall j :: 0 <= j < |irs| ==> irs[j][..] == old(irs[j][..]);
    }

    method OutputLoop(sum1: array<real>, pos1: nat, sum2: array<real>, pos2: nat, n: nat) returns (out: seq<real>)
      requires pos1 + n <= sum1.Length && pos2 + n <= sum2.Length
      ensures |out| == n && forall i :: 0 <= i < n ==> out[i] == Mixed(sum1[..][pos1 + i], sum2[..][pos2 + i], scale)
    {
      out := [];
      for i := 0 to n
        invariant |out| == i
        invariant forall k :: 0 <= k < i ==> out[k] == Mixed(sum1[..][pos1 + k], sum2[..][pos2 + k], scale)
      {
        out := out + [(sum1[pos1 + i] + sum2[pos2 + i]) * scale];
      }
    }

    /** The output loop, and the read positions after it. */
    method Output(n: nat) returns (out: seq<real>)
      requires Valid() && Model().Readable(n)
      modifies this`curcall, readpos
      ensures Valid() && Model() == Advance(old(Model()), n)
      ensures out == OutputBlock(old(Model()), n)
    {
      ghost var before := Model();
      var prev := Prev(cur, |sums|);
      out := OutputLoop(sums[cur], readpos[cur], sums[prev], readpos[prev], n);
      assert out == OutputBlock(before, n);
      readpos[cur] := readpos[cur] + n;
      readpos[prev] := readpos[prev] + n;
      curcall := curcall + 1;
      assert Contents(irs) == before.irs && Contents(sums) == before.bufs;
      assert readpos[..] == Advance(before, n).readpos;
      assert Model() == Advance(before, n);
    }

    /** One call up to its output loop. */
    method FillSums(block: seq<real>)
      requires Valid() && Model().Ready(|block|)
      modifies this`inbufpos, this`curcall, this`curpart, this`blocksize, this`cur, inbuf, input, readpos, perCall, sums
      ensures Valid() && Model() == Filled(old(Model()), block) && Model().Readable(|block|)
    {
      hide BeginCycle, Prepared, Turned, ConvolveStep, Convolved, InverseStep;
      ghost var before := Model();
      GatherBlock(block);
      if inbufpos >= partsize {
        StartCycle(|block|);
      }
      Convolve();
      InverseCurrent();
      assert Model() == Filled(before, block);
    }

    /** One call of the perform routine. */
    method Perform(block: seq<real>) returns (out: seq<real>)
      requires Valid() && Model().Ready(|block|)
      modifies this`inbufpos, this`curcall, this`curpart, this`blocksize, this`cur, inbuf, input, readpos, perCall, sums
      ensures Valid() && (Model(), out) == Performed(old(Model()), block)
    {
      hide Filled, OutputBlock, Advance, State.Ready, State.Readable;
      FillSums(block);
      out := Output(|block|);
    }
  }

  /** The signal that a list of blocks makes, with silence before and after. */
  ghost function StreamOf(blocks: seq<seq<real>>, n: nat): Stream
    requires 0 < n && forall m :: 0 <= m < |blocks| ==> |blocks[m]| == n
  {
    t => if t >= 0 && t / n < |blocks| then blocks[t / n][t % n] else 0.0
  }

  lemma BlockOfStream(blocks: seq<seq<real>>, n: nat, m: nat)
    requires 0 < n && (forall k :: 0 <= k < |blocks| ==> |blocks[k]| == n) && m < |blocks|
    ensures InputBlock(StreamOf(blocks, n), n, m) == blocks[m]
  {
    var x := StreamOf(blocks, n);
    forall i | 0 <= i < n
      ensures x(m * n + i) == blocks[m][i]
    {
      Divided(m * n + i, n, m, i);
      NonNegative(m, n);
    }
  }

  lemma NonNegative(a: nat, b: nat)
    ensures a * b >= 0
  {
  }

  /**
   A whole run: an object is made, an impulse response is set, and the blocks are performed one after the other. Every
   output sample is the linear convolution of everything that came in, P - n samples late.
   */
  method ConvolveBlocks(t: Transform, P: nat, h: seq<real>, blocksize: nat, blocks: seq<seq<real>>, n: nat,
      ghost K: nat)
    returns (outs: seq<seq<real>>)
    requires 0 < blocksize <= P && P / blocksize <= MAX_PARTS && 0 < n && 0 < K <= MAX_PARTS && P == K * n
    requires IsTransform(t, P) && t.gain * (1.0 / (2 * P) as real) == 1.0
    requires forall m :: 0 <= m < |blocks| ==> |blocks[m]| == n
    ensures |outs| == |blocks|
    ensures forall m :: 0 <= m < |blocks| ==> DelayedBlock(outs[m], StreamOf(blocks, n), Used(h, P), n, m, P - n)
  {
    hide *;
    ghost var x := StreamOf(blocks, n);
    var c := Prepare(t, P, h, blocksize);
    ghost var s := c.Model();
    outs := [];
    PlayNext(s, x, n, 0);
    for m := 0 to |blocks|
      invariant c.Valid() && fresh(c) && fresh(c.inbuf) && fresh(c.input) && fresh(c.readpos) && fresh(c.perCall)
      invariant forall b :: 0 <= b < |c.sums| ==> fresh(c.sums[b])
      invariant c.Model() == Play(s, x, n, m) && |outs| == m
      invariant forall k :: 0 <= k < m ==> DelayedBlock(outs[k], x, Used(h, P), n, k, P - n)
    {
      BlockOfStream(blocks, n, m);
      PlayedBlock(s, t, P, h, blocksize, blocks, n, K, m);
      ghost var before := c.Model();
      var out := c.Perform(blocks[m]);
      assert c.Model() == Performed(before, blocks[m]).0 && out == Performed(before, blocks[m]).1;
      outs := outs + [out];
    }
  }

  /** Block m of the linear convolution of a signal with a response, delayed. */
  ghost predicate DelayedBlock(out: seq<real>, x: Stream, h: seq<real>, n: nat, m: nat, delay: int) {
    |out| == n && forall i :: 0 <= i < n ==> out[i] == Linear(x, h, m * n + i - delay)
  }

  method Prepare(t: Transform, P: nat, h: seq<real>, blocksize: nat) returns (c: Convolver)
    requires 0 < blocksize <= P && P / blocksize <= MAX_PARTS && IsTransform(t, P)
    ensures c.Valid() && fresh(c) && fresh(c.inbuf) && fresh(c.input) && fresh(c.readpos) && fresh(c.perCall)
    ensures forall b :: 0 <= b < |c.sums| ==> fresh(c.sums[b])
    ensures c.Model() == Start(t, P, 1.0 / (2 * P) as real, h, blocksize)
  {
    hide Start;
    c := new Convolver(t, P, blocksize);
    c.Set(h);
    assert forall b :: 0 <= b < |c.sums| ==> c.sums[b] in c.sums;
  }

  /** The next call of a run, in the stream of all blocks. */
  lemma PlayedBlock(s: State, t: Transform, P: nat, h: seq<real>, blocksize: nat, blocks: seq<seq<real>>, n: nat,
      K: nat, m: nat)
    requires 0 < blocksize <= P && P / blocksize <= MAX_PARTS && 0 < n && 0 < K <= MAX_PARTS && P == K * n
    requires IsTransform(t, P) && t.gain * (1.0 / (2 * P) as real) == 1.0
    requires (forall k :: 0 <= k < |blocks| ==> |blocks[k]| == n) && m < |blocks|
    requires s == Start(t, P, 1.0 / (2 * P) as real, h, blocksize)
    ensures var x := StreamOf(blocks, n);
      && Play(s, x, n, m).Ready(n)
      && Play(s, x, n, m + 1) == Performed(Play(s, x, n, m), blocks[m]).0
      && DelayedBlock(Performed(Play(s, x, n, m), blocks[m]).1, x, Used(h, P), n, m, P - n)
  {
    hide *;
    var x := StreamOf(blocks, n);
    StreamCausal(blocks, n);
    BlockOfStream(blocks, n, m);
    PlayNext(s, x, n, m);
    PartitionedConvolution(s, t, P, 1.0 / (2 * P) as real, h, blocksize, x, n, K, m, 0);
    var out := Performed(Play(s, x, n, m), blocks[m]).1;
    forall i | 0 <= i < n
      ensures out[i] == Linear(x, Used(h, P), m * n + i - (P - n))
    {
      PartitionedConvolution(s, t, P, 1.0 / (2 * P) as real, h, blocksize, x, n, K, m, i);
    }
    IsDelayedBlock(out, x, Used(h, P), n, m, P - n);
  }

  lemma IsDelayedBlock(out: seq<real>, x: Stream, h: seq<real>, n: nat, m: nat, delay: int)
    requires |out| == n && forall i :: 0 <= i < n ==> out[i] == Linear(x, h, m * n + i - delay)
    ensures DelayedBlock(out, x, h, n, m, delay)
  {
  }

  lemma StreamCausal(blocks: seq<seq<real>>, n: nat)
    requires 0 < n && forall m :: 0 <= m < |blocks| ==> |blocks[m]| == n
    ensures Causal(StreamOf(blocks, n))
  {
  }

  lemma PlayNext(s: State, x: Stream, n: nat, m: nat)
    ensures Play(s, x, n, 0) == s
    ensures var before := Play(s, x, n, m);
      Play(s, x, n, m + 1) == if before.Ready(n) then Performed(before, InputBlock(x, n, m)).0 else before
  {
    hide Performed, InputBlock, State.Ready;
  }
}
