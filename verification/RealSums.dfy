/** Finite sums of real-valued functions of an integer index. */
module RealSums {

  /** The sum of f(i) for lo <= i < hi; zero when the range is empty. */
  ghost function Sum(f: int -> real, lo: int, hi: int): real
    decreases hi - lo
  {
    if hi <= lo then 0.0 else Sum(f, lo, hi - 1) + f(hi - 1)
  }

  lemma {:induction false} SumSplit(f: int -> real, lo: int, mid: int, hi: int)
    requires lo <= mid <= hi
    ensures Sum(f, lo, hi) == Sum(f, lo, mid) + Sum(f, mid, hi)
    decreases hi - mid
  {
    if mid < hi {
      SumSplit(f, lo, mid, hi - 1);
    }
  }

  lemma SumFirst(f: int -> real, lo: int, hi: int)
    requires lo < hi
    ensures Sum(f, lo, hi) == f(lo) + Sum(f, lo + 1, hi)
  {
    SumSplit(f, lo, lo + 1, hi);
    assert Sum(f, lo, lo + 1) == Sum(f, lo, lo) + f(lo);
  }

  ghost predicate Scales(f: int -> real, g: int -> real, m: real, lo: int, hi: int) {
    forall i :: lo <= i < hi ==> g(i) == m * f(i)
  }

  lemma {:induction false} SumScale(f: int -> real, g: int -> real, m: real, lo: int, hi: int)
    requires Scales(f, g, m, lo, hi)
    ensures Sum(g, lo, hi) == m * Sum(f, lo, hi)
    decreases hi - lo
  {
    if lo < hi {
      SumScale(f, g, m, lo, hi - 1);
      assert g(hi - 1) == m * f(hi - 1);
    }
  }

  /** A sum depends only on the values in its range, up to a shift of the index. */
  lemma {:induction false} SumShift(f: int -> real, g: int -> real, lo: int, hi: int, d: int)
    requires forall i :: lo <= i < hi ==> f(i) == g(i + d)
    ensures Sum(f, lo, hi) == Sum(g, lo + d, hi + d)
    decreases hi - lo
  {
    if lo < hi {
      SumShift(f, g, lo, hi - 1, d);
      assert f(hi - 1) == g(hi - 1 + d);
    }
  }

  lemma {:induction false} SumAdd(f: int -> real, g: int -> real, s: int -> real, lo: int, hi: int)
    requires forall i :: lo <= i < hi ==> s(i) == f(i) + g(i)
    ensures Sum(s, lo, hi) == Sum(f, lo, hi) + Sum(g, lo, hi)
    decreases hi - lo
  {
    if lo < hi {
      SumAdd(f, g, s, lo, hi - 1);
    }
  }

  lemma SumAddShifted(f: int -> real, g: int -> real, s: int -> real, n: nat, d: int)
    requires forall i :: 0 <= i < n ==> f(i) + g(i) == s(i + d)
    ensures Sum(f, 0, n) + Sum(g, 0, n) == Sum(s, d, d + n)
  {
    var t := (i: int) => s(i + d);
    SumAdd(f, g, t, 0, n);
    SumShift(t, s, 0, n, d);
  }

  lemma {:induction false} SumZero(f: int -> real, lo: int, hi: int)
    requires forall i :: lo <= i < hi ==> f(i) == 0.0
    ensures Sum(f, lo, hi) == 0.0
    decreases hi - lo
  {
    if lo < hi {
      SumZero(f, lo, hi - 1);
    }
  }
}
