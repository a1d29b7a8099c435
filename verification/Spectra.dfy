/**
 The buffers of the partitioned convolver and the two transforms it relies on.
 A buffer is a block of 2P+2 floats that is read either as 2P samples (the last two floats are
 padding) or as P+1 complex bins, bin k being the pair at 2k and 2k+1.
 */
module Spectra {
  import opened Samples
  import opened RealSums

  type Buffer = seq<real>

  /**
   The real-to-complex and complex-to-real transforms, as functions on whole buffers. Neither is
   normalised: going there and back multiplies by the gain.
   */
  datatype Transform = Transform(forward: seq<real> -> Buffer, inverse: Buffer -> Buffer, gain: real)

  /** One float of the product of two spectra: the real part at even positions, the imaginary part at odd ones. */
  function ProductAt(a: Buffer, b: Buffer, i: nat): real
    requires |a| == |b| && |a| % 2 == 0 && i < |a|
  {
    if i % 2 == 0 then a[i] * b[i] - a[i + 1] * b[i + 1]
    else a[i - 1] * b[i] + a[i] * b[i - 1]
  }

  function Product(a: Buffer, b: Buffer): (r: Buffer)
    requires |a| == |b| && |a| % 2 == 0
    ensures |r| == |a| && forall i :: 0 <= i < |a| ==> r[i] == ProductAt(a, b, i)
  {
    seq(|a|, i requires 0 <= i < |a| => ProductAt(a, b, i))
  }

  function Plus(a: Buffer, b: Buffer): (r: Buffer)
    requires |a| == |b|
    ensures |r| == |a| && forall i :: 0 <= i < |a| ==> r[i] == a[i] + b[i]
  {
    seq(|a|, i requires 0 <= i < |a| => a[i] + b[i])
  }

  /** What the bin loop does to one accumulator: add the product of two spectra. */
  function Accumulated(acc: Buffer, a: Buffer, b: Buffer): (r: Buffer)
    requires |acc| == |a| == |b| && |a| % 2 == 0
    ensures |r| == |acc|
  {
    Plus(acc, Product(a, b))
  }

  ghost function CircularTerm(u: seq<real>, v: seq<real>, o: int): int -> real
    requires |u| == |v| > 0
  {
    j => if 0 <= j < |v| then u[(o - j) % |u|] * v[j] else 0.0
  }

  /** Circular convolution of two sequences of the same length. */
  ghost function Circular(u: seq<real>, v: seq<real>, o: int): real
    requires |u| == |v| > 0
  {
    Sum(CircularTerm(u, v, o), 0, |v|)
  }

  /** Every sample of the buffer is zero; the padding may hold anything. */
  ghost predicate Silent(b: Buffer, P: nat)
    requires |b| == 2 * P + 2
  {
    forall o :: 0 <= o < 2 * P ==> b[o] == 0.0
  }

  /** What is assumed of the transforms: additivity and the convolution theorem for size 2P. */
  ghost predicate IsTransform(t: Transform, P: nat)
    requires P > 0
  {
    && (forall u :: |u| == 2 * P ==> |t.forward(u)| == 2 * P + 2)
    && (forall b :: |b| == 2 * P + 2 ==> |t.inverse(b)| == 2 * P + 2)
    && Silent(t.inverse(Zeros(2 * P + 2)), P)
    && (forall a, b, o {:trigger t.inverse(Plus(a, b))[o]} :: |a| == |b| == 2 * P + 2 && 0 <= o < 2 * P ==>
          t.inverse(Plus(a, b))[o] == t.inverse(a)[o] + t.inverse(b)[o])
    && (forall u, v, o {:trigger t.inverse(Product(t.forward(u), t.forward(v)))[o]} ::
          |u| == |v| == 2 * P && 0 <= o < 2 * P ==>
          t.inverse(Product(t.forward(u), t.forward(v)))[o] == t.gain * Circular(u, v, o))
  }

  // ---- A transform that meets the assumptions ----

  /**
   The four-point discrete Fourier transform, whose roots of unity are 1, i, -1 and -i; neither direction is
   normalised.
   */
  function FourPoint(): Transform {
    Transform(
      (u: seq<real>) =>
        if |u| == 4 then [u[0] + u[1] + u[2] + u[3], 0.0, u[0] - u[2], u[3] - u[1], u[0] - u[1] + u[2] - u[3], 0.0]
          else [],
      (b: Buffer) =>
        if |b| == 6 then
          [b[0] + 2.0 * b[2] + b[4], b[0] - 2.0 * b[3] - b[4], b[0] - 2.0 * b[2] + b[4], b[0] + 2.0 * b[3] - b[4],
            0.0, 0.0]
        else [],
      4.0)
  }

  /** Circular convolution of four samples, written out. */
  function Cycled(u: seq<real>, v: seq<real>, o: int): real
    requires |u| == |v| == 4 && 0 <= o < 4
  {
    u[o] * v[0] + u[(o + 3) % 4] * v[1] + u[(o + 2) % 4] * v[2] + u[(o + 1) % 4] * v[3]
  }

  lemma FourPointConvolution(u: seq<real>, v: seq<real>, o: int)
    requires |u| == |v| == 4 && 0 <= o < 4
    ensures Circular(u, v, o) == Cycled(u, v, o)
  {
    var f := CircularTerm(u, v, o);
    assert (o - 1) % 4 == (o + 3) % 4 && (o - 2) % 4 == (o + 2) % 4 && (o - 3) % 4 == (o + 1) % 4;
    assert Sum(f, 0, 1) == Sum(f, 0, 0) + f(0);
    assert Sum(f, 0, 2) == Sum(f, 0, 1) + f(1);
    assert Sum(f, 0, 3) == Sum(f, 0, 2) + f(2);
    assert Sum(f, 0, 4) == Sum(f, 0, 3) + f(3);
  }

  /** The bins of a product, and what the inverse makes of them. */
  lemma FourPointProduct(t: Transform, u: seq<real>, v: seq<real>, o: int)
    requires t == FourPoint() && |u| == |v| == 4 && 0 <= o < 4
    ensures t.inverse(Product(t.forward(u), t.forward(v)))[o] == 4.0 * Cycled(u, v, o)
  {
    hide FourPoint, Product, Cycled;
    FourPointBins(t, u, v);
    var p := Product(t.forward(u), t.forward(v));
    FourPointInverse(t, p);
    CycledBins(u, v, p[0], p[2], p[3], p[4]);
  }

  lemma CycledBins(u: seq<real>, v: seq<real>, p: real, re: real, im: real, q: real)
    requires |u| == |v| == 4
    requires p == (u[0] + u[1] + u[2] + u[3]) * (v[0] + v[1] + v[2] + v[3])
    requires re == (u[0] - u[2]) * (v[0] - v[2]) - (u[3] - u[1]) * (v[3] - v[1])
    requires im == (u[0] - u[2]) * (v[3] - v[1]) + (u[3] - u[1]) * (v[0] - v[2])
    requires q == (u[0] - u[1] + u[2] - u[3]) * (v[0] - v[1] + v[2] - v[3])
    ensures p + 2.0 * re + q == 4.0 * Cycled(u, v, 0) && p - 2.0 * im - q == 4.0 * Cycled(u, v, 1)
    ensures p - 2.0 * re + q == 4.0 * Cycled(u, v, 2) && p + 2.0 * im - q == 4.0 * Cycled(u, v, 3)
  {
    FourPointSum(u[0], u[1], u[2], u[3], v[0], v[1], v[2], v[3], p, re, im, q);
  }

  lemma FourPointInverse(t: Transform, b: Buffer)
    requires t == FourPoint() && |b| == 6
    ensures var y := t.inverse(b);
      && |y| == 6
      && y[0] == b[0] + 2.0 * b[2] + b[4] && y[1] == b[0] - 2.0 * b[3] - b[4]
      && y[2] == b[0] - 2.0 * b[2] + b[4] && y[3] == b[0] + 2.0 * b[3] - b[4]
  {
  }

  lemma FourPointBins(t: Transform, u: seq<real>, v: seq<real>)
    requires t == FourPoint() && |u| == |v| == 4
    ensures |t.forward(u)| == |t.forward(v)| == 6
    ensures var p := Product(t.forward(u), t.forward(v));
      && p[0] == (u[0] + u[1] + u[2] + u[3]) * (v[0] + v[1] + v[2] + v[3])
      && p[2] == (u[0] - u[2]) * (v[0] - v[2]) - (u[3] - u[1]) * (v[3] - v[1])
      && p[3] == (u[0] - u[2]) * (v[3] - v[1]) + (u[3] - u[1]) * (v[0] - v[2])
      && p[4] == (u[0] - u[1] + u[2] - u[3]) * (v[0] - v[1] + v[2] - v[3])
  {
    var a, b := t.forward(u), t.forward(v);
    var p := Product(a, b);
    assert a == [u[0] + u[1] + u[2] + u[3], 0.0, u[0] - u[2], u[3] - u[1], u[0] - u[1] + u[2] - u[3], 0.0];
    assert b == [v[0] + v[1] + v[2] + v[3], 0.0, v[0] - v[2], v[3] - v[1], v[0] - v[1] + v[2] - v[3], 0.0];
    assert p[0] == ProductAt(a, b, 0) && p[2] == ProductAt(a, b, 2) && p[3] == ProductAt(a, b, 3) && p[4]
      == ProductAt(a, b, 4);
  }

  lemma FourPointSum(a: real, b: real, c: real, d: real, w: real, x: real, y: real, z: real, p: real, re: real,
      im: real, q: real)
    requires p == (a + b + c + d) * (w + x + y + z) && q == (a - b + c - d) * (w - x + y - z)
    requires re == (a - c) * (w - y) - (d - b) * (z - x) && im == (a - c) * (z - x) + (d - b) * (w - y)
    ensures p + 2.0 * re + q == 4.0 * (a * w + d * x + c * y + b * z)
    ensures p - 2.0 * im - q == 4.0 * (b * w + a * x + d * y + c * z)
    ensures p - 2.0 * re + q == 4.0 * (c * w + b * x + a * y + d * z)
    ensures p + 2.0 * im - q == 4.0 * (d * w + c * x + b * y + a * z)
  {
  }

  lemma FourPointSizes(t: Transform, u: seq<real>, a: Buffer, b: Buffer, o: int)
    requires t == FourPoint() && 0 <= o < 4
    ensures |u| == 4 ==> |t.forward(u)| == 6
    ensures |b| == 6 ==> |t.inverse(b)| == 6
    ensures |a| == |b| == 6 ==> t.inverse(Plus(a, b))[o] == t.inverse(a)[o] + t.inverse(b)[o]
  {
  }

  /** The assumptions can be met: the four-point transform satisfies them, for partitions of two samples. */
  lemma FourPointIsTransform(t: Transform)
    requires t == FourPoint()
    ensures IsTransform(t, 2) && t.gain * 0.25 == 1.0
  {
    hide FourPoint;
    forall u | |u| == 4
      ensures |t.forward(u)| == 6
    {
      FourPointSizes(t, u, [], [], 0);
    }
    forall b | |b| == 6
      ensures |t.inverse(b)| == 6
    {
      FourPointSizes(t, [], [], b, 0);
    }
    forall a, b, o | |a| == |b| == 6 && 0 <= o < 4
      ensures t.inverse(Plus(a, b))[o] == t.inverse(a)[o] + t.inverse(b)[o]
    {
      FourPointSizes(t, [], a, b, o);
    }
    FourPointSilent(t);
    forall u, v, o | |u| == |v| == 4 && 0 <= o < 4
      ensures t.inverse(Product(t.forward(u), t.forward(v)))[o] == t.gain * Circular(u, v, o)
    {
      FourPointProduct(t, u, v, o);
      FourPointConvolution(u, v, o);
    }
  }

  lemma FourPointSilent(t: Transform)
    requires t == FourPoint()
    ensures |t.inverse(Zeros(6))| == 6 && Silent(t.inverse(Zeros(6)), 2) && t.gain == 4.0
  {
  }
}
