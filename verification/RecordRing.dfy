/**
 disis_munger~'s circular record buffer against the unbounded history of what was recorded: an index that wraps for
 writing, a position that wraps for reading between two samples, and the seam where the oldest sample meets the
 newest.
 */
module RecordRing {
  import opened Samples
  import opened Division

  /** The buffer holds the latest |buf| samples, each at its time modulo the length. */
  ghost predicate Ring(buf: seq<real>, history: seq<real>) {
    && |buf| > 0
    && forall t :: |history| - |buf| <= t < |history| ==> buf[t % |buf|] == At(history, t)
  }

  lemma Distinct(s: int, t: int, m: int)
    requires m > 0 && s % m == t % m && -m < s - t < m
    ensures s == t
  {
    var k := Apart(s, t, m);
    Multiples(m, k);
  }

  /** Writing at the time's place keeps the ring, and overwrites the oldest sample. */
  lemma RingNext(buf: seq<real>, history: seq<real>, v: real)
    requires Ring(buf, history)
    ensures Ring(buf[|history| % |buf| := v], history + [v])
  {
    var n, m := |history|, |buf|;
    var next := buf[n % m := v];
    forall t | n + 1 - m <= t < n + 1
      ensures next[t % m] == At(history + [v], t)
    {
      if t < n {
        if t % m == n % m {
          Distinct(t, n, m);
        }
        assert At(history + [v], t) == At(history, t);
      }
    }
  }

  lemma RingStart(buf: seq<real>)
    requires |buf| > 0 && forall i :: 0 <= i < |buf| ==> buf[i] == 0.0
    ensures Ring(buf, [])
  {
  }

  /** A buffer of zeros is the ring of a silent history, whenever it is cleared. */
  lemma RingCleared(buf: seq<real>, n: nat)
    requires |buf| > 0 && forall i :: 0 <= i < |buf| ==> buf[i] == 0.0
    ensures Ring(buf, Zeros(n))
  {
  }

  /** The point at fraction a between x and y. */
  function Mixed(x: real, y: real, a: real): real {
    x * (1.0 - a) + y * a
  }

  /** What is read at a position of the buffer, taken round the circle. */
  function Read(buf: seq<real>, where: real): real
    requires |buf| > 0
  {
    Mixed(buf[where.Floor % |buf|], buf[(where.Floor + 1) % |buf|], where - where.Floor as real)
  }

  /** The history at a real time, between its two neighbouring samples. */
  function Between(history: seq<real>, p: real): real {
    Mixed(At(history, p.Floor), At(history, p.Floor + 1), p - p.Floor as real)
  }

  /** Between samples on a straight line the history is that line. */
  lemma StraightLine(history: seq<real>, p: real, start: real, slope: real)
    requires At(history, p.Floor) == start + slope * p.Floor as real
    requires At(history, p.Floor + 1) == start + slope * (p.Floor + 1) as real
    ensures Between(history, p) == start + slope * p
  {
    hide At;
    OnLine(start, slope, p.Floor as real, p - p.Floor as real, p);
  }

  lemma OnLine(start: real, slope: real, n: real, a: real, p: real)
    requires p == n + a
    ensures Mixed(start + slope * n, start + slope * (n + 1.0), a) == start + slope * p
  {
    var x, step := start + slope * n, slope * a;
    assert slope * (n + 1.0) == slope * n + slope;
    assert (x + slope) * a == x * a + step;
    assert slope * p == slope * n + step;
  }

  lemma FloorShift(x: real, n: int)
    ensures (x + n as real).Floor == x.Floor + n
  {
  }

  /** Reading is periodic in the length of the buffer. */
  lemma ReadPeriodic(buf: seq<real>, where: real, k: int)
    requires |buf| > 0
    ensures Read(buf, where + (|buf| * k) as real) == Read(buf, where)
  {
    var m, i := |buf|, where.Floor;
    SameRemainder(i, m, k);
    SameRemainder(i + 1, m, k);
    ShiftedRead(buf, where, m * k);
  }

  lemma ShiftedRead(buf: seq<real>, where: real, n: int)
    requires |buf| > 0 && (where.Floor + n) % |buf| == where.Floor % |buf|
    requires (where.Floor + 1 + n) % |buf| == (where.Floor + 1) % |buf|
    ensures Read(buf, where + n as real) == Read(buf, where)
  {
    FloorShift(where, n);
  }

  lemma FloorIs(x: real, n: int)
    requires n as real <= x < n as real + 1.0
    ensures x.Floor == n
  {
  }

  /**
   Between one sample and a whole buffer behind the head, the history is heard, interpolated between its samples.
   */
  lemma ReadAtLag(buf: seq<real>, history: seq<real>, lag: real, k: int)
    requires Ring(buf, history) && 1.0 <= lag <= |buf| as real
    ensures Read(buf, |history| as real - lag + (|buf| * k) as real) == Between(history, |history| as real - lag)
  {
    var p := |history| as real - lag;
    var i := p.Floor;
    ReadPeriodic(buf, p, k);
    assert |history| - |buf| <= i < |history|;
    assert buf[i % |buf|] == At(history, i);
    if i + 1 == |history| {
      assert p == i as real;
      hide Read, At;
      ExactlyOn(buf, history, p);
    } else {
      assert buf[(i + 1) % |buf|] == At(history, i + 1);
    }
  }

  lemma ExactlyOn(buf: seq<real>, history: seq<real>, p: real)
    requires |buf| > 0 && p == p.Floor as real && buf[p.Floor % |buf|] == At(history, p.Floor)
    ensures Read(buf, p) == Between(history, p)
  {
  }

  /** Less than one sample behind the head, the newest sample is mixed with the oldest. */
  lemma ReadAtSeam(buf: seq<real>, history: seq<real>, lag: real, k: int)
    requires Ring(buf, history) && 0.0 <= lag < 1.0
    ensures Read(buf, |history| as real - lag + (|buf| * k) as real)
         == Mixed(At(history, |history| - |buf|), At(history, |history| - 1), lag)
  {
    var n, m := |history|, |buf|;
    var p := n as real - lag;
    ReadPeriodic(buf, p, k);
    SameRemainder(n - m, m, 1);
    assert buf[n % m] == At(history, n - m);
    var i := if lag == 0.0 then n else n - 1;
    FloorIs(p, i);
    assert lag != 0.0 ==> buf[i % m] == At(history, i);
    hide At;
    MixedSwap(buf[i % m], buf[(i + 1) % m], p - i as real);
    MixedSwap(At(history, n - m), At(history, n - 1), 0.0);
  }

  lemma MixedSwap(x: real, y: real, a: real)
    ensures Mixed(x, y, a) == Mixed(y, x, 1.0 - a)
    ensures Mixed(x, y, 0.0) == x
  {
  }

  /** What a grain hears at a lag of at most the whole buffer. */
  function Heard(history: seq<real>, length: nat, lag: real): real {
    if lag >= 1.0 then Between(history, |history| as real - lag)
    else Mixed(At(history, |history| - length), At(history, |history| - 1), lag)
  }

  lemma ReadIsHeard(buf: seq<real>, history: seq<real>, lag: real, k: int)
    requires Ring(buf, history) && 0.0 <= lag <= |buf| as real
    ensures Read(buf, |history| as real - lag + (|buf| * k) as real) == Heard(history, |buf|, lag)
  {
    hide Ring, Read, Between;
    if lag >= 1.0 {
      ReadAtLag(buf, history, lag, k);
    } else {
      ReadAtSeam(buf, history, lag, k);
    }
  }

  lemma OneTurn(buf: seq<real>, where: real)
    requires |buf| > 0
    ensures Read(buf, where + |buf| as real) == Read(buf, where)
    ensures (where + |buf| as real).Floor == where.Floor + |buf|
  {
    FloorShift(where, |buf|);
    ReadPeriodic(buf, where, 1);
  }

  /** Reading as the code does it: bring the position into range, then mix two samples, the second one wrapped. */
  method GetSamp(buf: array<real>, position: real) returns (output: real)
    requires buf.Length > 0
    ensures output == Read(buf[..], position)
  {
    hide Read;
    ghost var b := buf[..];
    var length := buf.Length as real;
    var where := position;
    while where < 0.0
      invariant Read(b, where) == Read(b, position)
      decreases -where.Floor
    {
      OneTurn(b, where);
      where := where + length;
    }
    while where >= length
      invariant 0.0 <= where && Read(b, where) == Read(b, position)
      decreases where.Floor
    {
      OneTurn(b, where - length);
      where := where - length;
    }
    output := ReadInside(buf, where);
  }

  method ReadInside(buf: array<real>, where: real) returns (output: real)
    requires 0.0 <= where < buf.Length as real
    ensures output == Read(buf[..], where)
  {
    var first := Trunc(where);
    var alpha := where - first as real;
    Neighbour(first, buf.Length);
    output := buf[first] * (1.0 - alpha);
    first := first + 1;
    if first < buf.Length {
      output := output + buf[first] * alpha;
    } else {
      output := output + buf[0] * alpha;
    }
  }

  lemma Neighbour(i: int, m: int)
    requires 0 <= i < m
    ensures i % m == i && (i + 1) % m == if i + 1 < m then i + 1 else 0
  {
    SmallRemainder(i, m);
    if i + 1 == m {
      WrappedRemainder(m, m);
    } else {
      SmallRemainder(i + 1, m);
    }
  }
}
