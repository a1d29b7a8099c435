/**
 Partitioned convolution on samples: the sum over partitions of size-2P circular convolutions of
 zero-padded blocks, overlap-added, is plain linear convolution.
 */
module Convolution {
  import opened Samples
  import opened RealSums
  import opened Spectra
  import opened PartConvModel
  import opened Division

  /** An endless signal, silent before time zero. */
  type Stream = int -> real

  ghost predicate Causal(x: Stream) {
    forall i :: i < 0 ==> x(i) == 0.0
  }

  ghost function Tap(x: Stream, h: seq<real>, t: int): int -> real {
    j => x(t - j) * At(h, j)
  }

  /** Sample t of the linear convolution of a signal with an impulse response. */
  ghost function Linear(x: Stream, h: seq<real>, t: int): real {
    Sum(Tap(x, h, t), 0, |h|)
  }

  /** The number of partitions: enough to cover the response, but no more than the table holds. */
  function PartCount(len: nat, P: nat): nat
    requires P > 0
  {
    Min(len / P + (if len % P != 0 then 1 else 0), MAX_PARTS)
  }

  /** The part of the impulse response that fits in the table of partitions. */
  function Used(h: seq<real>, P: nat): seq<real> {
    h[..Min(|h|, MAX_PARTS * P)]
  }

  /** A response of up to 256 partitions is used whole, and a longer one up to there. */
  lemma UsedPrefix(h: seq<real>, P: nat)
    ensures |h| <= 256 * P ==> Used(h, P) == h
    ensures |h| > 256 * P ==> |Used(h, P)| == 256 * P && Used(h, P) + h[256 * P..] == h
  {
  }

  function Partition(h: seq<real>, P: nat, p: nat): (r: seq<real>)
    ensures |r| == P
  {
    seq(P, j => At(h, p * P + j))
  }

  ghost function Block(x: Stream, P: nat, k: int): seq<real> {
    seq(P, i => x(k * P + i))
  }

  function PaddedTo2(b: seq<real>): (r: seq<real>)
    ensures |r| == 2 * |b|
  {
    b + Zeros(|b|)
  }

  /** Sample o of the circular convolution of block k with partition q. */
  ghost function PairAt(x: Stream, h: seq<real>, P: nat, k: int, q: nat, o: int): real
    requires P > 0
  {
    Circular(PaddedTo2(Block(x, P, k)), PaddedTo2(Partition(h, P, q)), o)
  }

  ghost function PairsAt(x: Stream, h: seq<real>, P: nat, e: int, o: int): int -> real
    requires P > 0
  {
    q => if q >= 0 then PairAt(x, h, P, e - q, q, o) else 0.0
  }

  /** Sample o of everything that accumulator e receives from partitions q and up. */
  ghost function TailAt(x: Stream, h: seq<real>, P: nat, parts: nat, e: int, q: nat, o: int): real
    requires P > 0
  {
    Sum(PairsAt(x, h, P, e, o), q, parts)
  }

  ghost function PairTap(u: seq<real>, v: seq<real>, o: int): int -> real {
    j => At(u, o - j) * At(v, j)
  }

  lemma ModInRange(a: int, m: int)
    requires -m <= a < m
    ensures a % m == if a >= 0 then a else a + m
  {
    if a >= 0 {
      SmallRemainder(a, m);
    } else {
      Divided(a, m, -1, a + m);
    }
  }

  lemma CircularTermPadded(u: seq<real>, v: seq<real>, o: int, j: int)
    requires |u| == |v| > 0 && 0 <= o < 2 * |u| && 0 <= j < 2 * |u|
    ensures CircularTerm(PaddedTo2(u), PaddedTo2(v), o)(j) == if j < |u| then At(u, o - j) * At(v, j) else 0.0
  {
    var P := |u|;
    var m := (o - j) % (2 * P);
    if j < P {
      ModInRange(o - j, 2 * P);
      assert PaddedTo2(v)[j] == v[j];
    } else {
      assert PaddedTo2(v)[j] == 0.0;
    }
  }

  /** Because of the padding, circular convolution of two blocks never wraps. */
  lemma CircularIsLinear(u: seq<real>, v: seq<real>, o: int)
    requires |u| == |v| > 0 && 0 <= o < 2 * |u|
    ensures Circular(PaddedTo2(u), PaddedTo2(v), o) == Sum(PairTap(u, v, o), 0, |u|)
  {
    var P := |u|;
    var f, g := CircularTerm(PaddedTo2(u), PaddedTo2(v), o), PairTap(u, v, o);
    CircularTerms(u, v, o);
    hide CircularTerm, PairTap, PaddedTo2, At, Sum;
    SumShift(f, g, 0, P, 0);
    SumZero(f, P, 2 * P);
    SumSplit(f, 0, P, 2 * P);
  }

  lemma CircularTerms(u: seq<real>, v: seq<real>, o: int)
    requires |u| == |v| > 0 && 0 <= o < 2 * |u|
    ensures forall j :: 0 <= j < 2 * |u| ==>
      CircularTerm(PaddedTo2(u), PaddedTo2(v), o)(j) == if j < |u| then PairTap(u, v, o)(j) else 0.0
  {
    hide PaddedTo2, CircularTerm;
    forall j | 0 <= j < 2 * |u|
      ensures CircularTerm(PaddedTo2(u), PaddedTo2(v), o)(j) == if j < |u| then PairTap(u, v, o)(j) else 0.0
    {
      CircularTermPadded(u, v, o, j);
    }
  }

  /** One tap of the overlap-add: exactly one of the two blocks supplies the delayed sample. */
  lemma OverlapTap(x: Stream, h: seq<real>, P: nat, k: int, q: nat, o: int, j: int)
    requires 0 <= o < P && 0 <= j < P
    ensures PairTap(Block(x, P, k), Partition(h, P, q), o)(j) + PairTap(Block(x, P, k - 1), Partition(h, P, q),
      P + o)(j)
         == Tap(x, h, (k + q) * P + o)(j + q * P)
  {
    assert (k + q) * P + o - (j + q * P) == k * P + (o - j);
    assert (k - 1) * P + (P + o - j) == k * P + (o - j);
    assert At(Partition(h, P, q), j) == At(h, q * P + j);
    if j <= o {
      assert At(Block(x, P, k), o - j) == x(k * P + (o - j));
    } else {
      assert At(Block(x, P, k - 1), P + o - j) == x((k - 1) * P + (P + o - j));
    }
  }

  /** Overlap-add: the first half of a block's result and the second half of the one before it. */
  lemma OverlapAdd(x: Stream, h: seq<real>, P: nat, k: int, q: nat, o: int)
    requires 0 <= o < P
    ensures PairAt(x, h, P, k, q, o) + PairAt(x, h, P, k - 1, q, P + o)
         == Sum(Tap(x, h, (k + q) * P + o), q * P, q * P + P)
  {
    var u, u1, v := Block(x, P, k), Block(x, P, k - 1), Partition(h, P, q);
    CircularIsLinear(u, v, o);
    CircularIsLinear(u1, v, P + o);
    forall j | 0 <= j < P
      ensures PairTap(u, v, o)(j) + PairTap(u1, v, P + o)(j) == Tap(x, h, (k + q) * P + o)(j + q * P)
    {
      OverlapTap(x, h, P, k, q, o, j);
    }
    SumAddShifted(PairTap(u, v, o), PairTap(u1, v, P + o), Tap(x, h, (k + q) * P + o), P, q * P);
  }

  lemma {:induction false} OverlapAddTail(x: Stream, h: seq<real>, P: nat, parts: nat, c: int, q: nat, o: int,
      at: int, from: nat, end: nat)
    requires 0 <= o < P && q <= parts && at == c * P + o && from == q * P && end == parts * P
    ensures from <= end
    ensures TailAt(x, h, P, parts, c, q, o) + TailAt(x, h, P, parts, c - 1, q, P + o) == Sum(Tap(x, h, at), from, end)
    decreases parts - q
  {
    hide Sum, TailAt, PairAt, Tap;
    if q < parts {
      NextTimes(q, P);
      OverlapAddTail(x, h, P, parts, c, q + 1, o, at, from + P, end);
      TailStep(x, h, P, parts, c, q, o);
      TailStep(x, h, P, parts, c - 1, q, P + o);
      assert (c - q) + q == c && c - 1 - q == c - q - 1;
      OverlapAdd(x, h, P, c - q, q, o);
      SumSplit(Tap(x, h, at), from, from + P, end);
    } else {
      TailEnd(x, h, P, parts, c, o);
      TailEnd(x, h, P, parts, c - 1, P + o);
    }
  }

  lemma NextTimes(q: nat, P: nat)
    ensures (q + 1) * P == q * P + P
  {
  }

  lemma TailEnd(x: Stream, h: seq<real>, P: nat, parts: nat, e: int, o: int)
    requires P > 0
    ensures TailAt(x, h, P, parts, e, parts, o) == 0.0
    ensures forall f, i :: Sum(f, i, i) == 0.0
  {
  }

  /** One partition more. */
  lemma TailStep(x: Stream, h: seq<real>, P: nat, parts: nat, e: int, q: nat, o: int)
    requires P > 0 && q < parts
    ensures TailAt(x, h, P, parts, e, q, o) == PairAt(x, h, P, e - q, q, o) + TailAt(x, h, P, parts, e, q + 1, o)
  {
    SumFirst(PairsAt(x, h, P, e, o), q, parts);
  }

  lemma PartCountCovers(len: nat, P: nat)
    requires P > 0
    ensures Min(len, MAX_PARTS * P) <= PartCount(len, P) * P <= MAX_PARTS * P
    ensures len < MAX_PARTS * P ==> len <= PartCount(len, P) * P
  {
    Parts(len, P);
    var q, r := len / P, len % P;
    var all := q + (if r != 0 then 1 else 0);
    assert PartCount(len, P) == Min(all, MAX_PARTS);
    CountCovers(len, P, q, r, all, Min(all, MAX_PARTS));
  }

  lemma CountCovers(len: nat, P: nat, q: nat, r: nat, all: nat, parts: nat)
    requires len == P * q + r && r < P && all == q + (if r != 0 then 1 else 0) && parts == Min(all, MAX_PARTS)
    ensures Min(len, MAX_PARTS * P) <= parts * P <= MAX_PARTS * P
    ensures len < MAX_PARTS * P ==> len <= parts * P
  {
    Times(parts, all, P);
    Times(parts, MAX_PARTS, P);
    assert all * P == P * q + (if r != 0 then P else 0);
  }

  lemma Times(a: nat, b: nat, P: nat)
    requires a <= b
    ensures a * P <= b * P
  {
  }

  /** Taps beyond the used part of the response contribute nothing. */
  lemma TruncatedResponse(x: Stream, h: seq<real>, u: seq<real>, t: int, len: nat)
    requires |u| <= |h| && u == h[..|u|] && |u| <= len && (|u| < len ==> |u| == |h|)
    ensures Sum(Tap(x, h, t), 0, len) == Linear(x, u, t)
  {
    var f, g := Tap(x, h, t), Tap(x, u, t);
    SumSplit(f, 0, |u|, len);
    SumZero(f, |u|, len);
    SumShift(f, g, 0, |u|, 0);
  }

  /** What the output loop should find at offset o of cycle c. */
  ghost function OverlappedAt(x: Stream, h: seq<real>, P: nat, parts: nat, c: int, o: int): real
    requires P > 0
  {
    TailAt(x, h, P, parts, c, 0, o) + TailAt(x, h, P, parts, c - 1, 0, P + o)
  }

  /** Partitioned, padded, circular and overlap-added is plain convolution. */
  lemma PartitionedIsLinear(x: Stream, h: seq<real>, P: nat, c: int, o: int)
    requires 0 <= o < P
    ensures OverlappedAt(x, h, P, PartCount(|h|, P), c, o) == Linear(x, Used(h, P), c * P + o)
  {
    var parts := PartCount(|h|, P);
    PartCountCovers(|h|, P);
    OverlapAddTail(x, h, P, parts, c, 0, o, c * P + o, 0, parts * P);
    TruncatedResponse(x, h, Used(h, P), c * P + o, parts * P);
  }

  lemma {:induction false} LinearBeforeStart(x: Stream, h: seq<real>, t: int)
    requires Causal(x) && t < 0
    ensures Linear(x, h, t) == 0.0
  {
    SumZero(Tap(x, h, t), 0, |h|);
  }
}
