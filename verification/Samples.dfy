/** Lists of samples, C's conversion to an integer, and signs of products, as all externals use them. */
module Samples {

  /** Silence: n zeros. */
  function Zeros(n: nat): (r: seq<real>)
    ensures |r| == n && forall i :: 0 <= i < n ==> r[i] == 0.0
  {
    seq(n, i => 0.0)
  }

  /** The sample at time t, with silence before the first and after the last. */
  function At(s: seq<real>, t: int): real {
    if 0 <= t < |s| then s[t] else 0.0
  }

  /** Conversion of a real to an integer as C does it: towards zero. */
  function Trunc(x: real): int {
    if x >= 0.0 then x.Floor else -((-x).Floor)
  }

  lemma PositiveProduct(a: real, b: real)
    requires a > 0.0 && b > 0.0
    ensures a * b > 0.0
  {
  }

  lemma NonNegativeProduct(a: real, b: real)
    requires a >= 0.0 && b >= 0.0
    ensures a * b >= 0.0
  {
  }

  lemma ProductSign(a: real, b: real)
    requires b > 0.0
    ensures a * b > 0.0 <==> a > 0.0
  {
  }

  /** The n-th power of a. */
  function Raised(a: real, n: nat): real {
    if n == 0 then 1.0 else a * Raised(a, n - 1)
  }
}
