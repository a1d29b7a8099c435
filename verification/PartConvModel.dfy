/** The state of one partitioned convolver and what one call of its perform routine does to it, as functions. */
module PartConvModel {
  import opened Samples
  import opened Spectra

  const MAX_PARTS: nat := 256

  /**
   The memory of the object. `input` and every element of `bufs` are the blocks that the in-place
   transforms use both as samples and as bins.
   */
  datatype State = State(
    t: Transform,
    partsize: nat,
    scale: real,
    irs: seq<Buffer>,       // spectra of the partitions of the impulse response
    inbuf: seq<real>,
    inbufpos: nat,
    input: Buffer,
    bufs: seq<Buffer>,      // the ring of accumulators
    readpos: seq<nat>,
    cur: nat,               // index of the current accumulator
    blocksize: nat,         // block size for which the work was last dealt
    perCall: seq<nat>,      // partitions to convolve in each call of a cycle
    curcall: nat,
    curpart: nat)
  {
    function Padded(): nat { 2 * partsize + 2 }

    function Ring(): nat { |irs| + 2 }

    ghost predicate WellFormed() {
      && partsize > 0
      && Sized(t, partsize)
      && (forall p :: 0 <= p < |irs| ==> |irs[p]| == Padded())
      && |irs| <= MAX_PARTS
      && |inbuf| == partsize
      && |input| == Padded()
      && |bufs| == |readpos| == Ring()
      && (forall b :: 0 <= b < Ring() ==> |bufs[b]| == Padded())
      && cur < Ring()
      && |perCall| == MAX_PARTS
      && curpart <= |irs|
    }

    /** A call with a block of n samples stays inside every buffer. */
    ghost predicate Ready(n: nat) {
      && WellFormed()
      && 0 < n
      && inbufpos + n <= partsize
      && partsize % n == 0
      && partsize / n <= MAX_PARTS
      && (inbufpos + n < partsize ==> curcall < MAX_PARTS && Readable(n))
    }

    /** n samples can be read from the current accumulator and from the previous one. */
    ghost predicate Readable(n: nat)
      requires WellFormed()
    {
      readpos[cur] + n <= 2 * partsize && readpos[Prev(cur, Ring())] + n <= 2 * partsize
    }
  }

  /** The transforms keep the sizes of the buffers. */
  ghost predicate Sized(t: Transform, P: nat) {
    && (forall u :: |u| == 2 * P ==> |t.forward(u)| == 2 * P + 2)
    && (forall b :: |b| == 2 * P + 2 ==> |t.inverse(b)| == 2 * P + 2)
  }

  function Next(b: nat, ring: nat): nat
    requires ring > 0
  {
    (b + 1) % ring
  }

  function Prev(b: nat, ring: nat): nat
    requires ring > 0
  {
    if b == 0 then ring - 1 else b - 1
  }

  /** How many of `parts` cards, dealt round robin to `calls` hands, hand `c` gets. */
  function Share(parts: nat, calls: nat, c: nat): nat
    requires calls > 0
  {
    parts / calls + (if c < parts % calls then 1 else 0)
  }

  /** The table after dealing: one share for each call of a cycle, other entries as they were. */
  function Dealt(perCall: seq<nat>, parts: nat, calls: nat): (r: seq<nat>)
    requires 0 < calls <= |perCall|
    ensures |r| == |perCall|
  {
    seq(|perCall|, c requires 0 <= c < |perCall| => if c < calls then Share(parts, calls, c) else perCall[c])
  }

  function Min(a: int, b: int): int { if a < b then a else b }

  /** One more block of input in the gathering buffer. */
  ghost function Gather(s: State, block: seq<real>): (r: State)
    requires s.Ready(|block|)
    ensures r.WellFormed()
  {
    s.(inbuf := s.inbuf[..s.inbufpos] + block + s.inbuf[s.inbufpos + |block|..],
       inbufpos := s.inbufpos + |block|)
  }

  /** The full input buffer is transformed, after dealing the work again if the block size changed. */
  ghost function Prepared(s: State, n: nat): (r: State)
    requires s.WellFormed() && 0 < n <= s.partsize && s.partsize / n <= MAX_PARTS
    ensures r.WellFormed()
    ensures r == s.(blocksize := n, perCall := r.perCall, inbufpos := 0, curcall := 0, curpart := 0, input := r.input)
  {
    Positive(s.partsize, n);
    s.(blocksize := n,
       perCall := if s.blocksize != n then Dealt(s.perCall, |s.irs|, s.partsize / n) else s.perCall,
       inbufpos := 0, curcall := 0, curpart := 0,
       input := s.t.forward(s.inbuf + Zeros(s.partsize)))
  }

  /** The ring advances; the accumulator that was read out completely is cleared. */
  ghost function Turned(s: State): (r: State)
    requires s.WellFormed()
    ensures r.WellFormed()
    ensures r == s.(bufs := r.bufs, cur := r.cur, readpos := r.readpos)
  {
    var next := Next(s.cur, s.Ring());
    s.(bufs := s.bufs[Prev(s.cur, s.Ring()) := Zeros(s.Padded())],
       cur := next,
       readpos := s.readpos[next := 0][Prev(next, s.Ring()) := s.partsize])
  }

  /** The start of a cycle. */
  ghost function BeginCycle(s: State, n: nat): (r: State)
    requires s.WellFormed() && 0 < n <= s.partsize && s.partsize / n <= MAX_PARTS
    ensures r.WellFormed() && r.Readable(n) && r.curcall == 0
  {
    Turned(Prepared(s, n))
  }

  lemma Positive(p: nat, n: nat)
    requires 0 < n <= p
    ensures p / n > 0
  {
    assert p == n * (p / n) + p % n;
  }

  /** Partitions from..to of the impulse response times the input, each added to its own accumulator. */
  ghost function Convolved(bufs: seq<Buffer>, cur: nat, input: Buffer, irs: seq<Buffer>, from: nat,
      upto: nat): (r: seq<Buffer>)
    requires from <= upto <= |irs| && |bufs| == |irs| + 2
    requires |input| % 2 == 0
    requires forall b :: 0 <= b < |bufs| ==> |bufs[b]| == |input|
    requires forall p :: 0 <= p < |irs| ==> |irs[p]| == |input|
    ensures |r| == |bufs| && forall b :: 0 <= b < |r| ==> |r[b]| == |input|
  {
    if from == upto then bufs
    else
      var b := Convolved(bufs, cur, input, irs, from, upto - 1);
      var i := (cur + upto - 1) % |bufs|;
      b[i := Accumulated(b[i], input, irs[upto - 1])]
  }

  ghost function EndPart(s: State): nat
    requires s.curcall < |s.perCall|
  {
    Min(s.curpart + s.perCall[s.curcall], |s.irs|)
  }

  ghost function ConvolveStep(s: State): (r: State)
    requires s.WellFormed() && s.curcall < MAX_PARTS
    ensures r.WellFormed()
    ensures r == s.(bufs := r.bufs, curpart := r.curpart)
  {
    s.(bufs := Convolved(s.bufs, s.cur, s.input, s.irs, s.curpart, EndPart(s)),
       curpart := EndPart(s))
  }

  /** In the first call of a cycle the current accumulator is complete and becomes samples. */
  ghost function InverseStep(s: State): (r: State)
    requires s.WellFormed()
    ensures r.WellFormed()
    ensures r == s.(bufs := r.bufs)
  {
    if s.curcall == 0 then s.(bufs := s.bufs[s.cur := s.t.inverse(s.bufs[s.cur])]) else s
  }

  function Mixed(a: real, b: real, scale: real): real { (a + b) * scale }

  /** The samples of one output block. */
  ghost function OutputBlock(s: State, n: nat): (r: seq<real>)
    requires s.WellFormed() && s.Readable(n)
    ensures |r| == n
  {
    var prev := Prev(s.cur, s.Ring());
    seq(n, i requires 0 <= i < n =>
      Mixed(s.bufs[s.cur][s.readpos[s.cur] + i], s.bufs[prev][s.readpos[prev] + i], s.scale))
  }

  ghost function Advance(s: State, n: nat): State
    requires s.WellFormed()
  {
    var prev := Prev(s.cur, s.Ring());
    var moved := s.readpos[s.cur := s.readpos[s.cur] + n];
    s.(readpos := moved[prev := moved[prev] + n], curcall := s.curcall + 1)
  }

  /** The state of a call just before its output loop. */
  ghost function Filled(s: State, block: seq<real>): (r: State)
    requires s.Ready(|block|)
    ensures r.WellFormed() && r.Readable(|block|)
  {
    var n := |block|;
    var s1 := Gather(s, block);
    var s2 := if s1.inbufpos >= s1.partsize then BeginCycle(s1, n) else s1;
    InverseStep(ConvolveStep(s2))
  }

  /** One call of the perform routine: the new state and the block it outputs. */
  ghost function Performed(s: State, block: seq<real>): (r: (State, seq<real>))
    requires s.Ready(|block|)
    ensures r.0.WellFormed() && |r.1| == |block|
  {
    var s1 := Filled(s, block);
    (Advance(s1, |block|), OutputBlock(s1, |block|))
  }
}
