/**
 boids2d's search for the nearest neighbours of a boid: one pass over the flock that keeps the k closest seen so far
 in order, by inserting from the bottom of a small array.
 */
module Neighbors {

  datatype Point = Point(x: real, y: real)

  /** The square of the distance between two points. */
  function DistSqr(a: Point, b: Point): real {
    (a.x - b.x) * (a.x - b.x) + (a.y - b.y) * (a.y - b.y)
  }

  /** Nothing but the square of a distance: the square of the way along an axis, and added up over the two legs. */
  lemma DistSqrIsDistance(a: Point, b: Point, h: real)
    ensures DistSqr(a, b) == DistSqr(b, a)
    ensures DistSqr(a, b) == DistSqr(a, Point(b.x, a.y)) + DistSqr(Point(b.x, a.y), b)
    ensures DistSqr(a, Point(a.x + h, a.y)) == DistSqr(a, Point(a.x, a.y + h)) == h * h
  {
  }

  /** Only a boid in the same place is at distance zero. */
  lemma DistSqrSign(a: Point, b: Point)
    ensures if a == b then DistSqr(a, b) == 0.0 else DistSqr(a, b) > 0.0
  {
    Legs(a, b);
    hide DistSqr;
    SquareSign(b.x - a.x);
    SquareSign(b.y - a.y);
  }

  function Square(x: real): real { x * x }

  lemma Legs(a: Point, b: Point)
    ensures DistSqr(a, b) == Square(b.x - a.x) + Square(b.y - a.y)
  {
  }

  lemma SquareSign(x: real)
    ensures if x == 0.0 then Square(x) == 0.0 else Square(x) > 0.0
  {
    SquareIsProduct(x);
    hide Square, Product;
    if x > 0.0 {
      ProductPositive(x, x);
    } else if x < 0.0 {
      ProductOfNegatives(x, x);
    } else {
      ZeroSquare(x);
    }
  }

  function Product(a: real, b: real): real { a * b }

  lemma SquareIsProduct(x: real)
    ensures Square(x) == Product(x, x)
  {
  }

  lemma ProductPositive(a: real, b: real)
    requires a > 0.0 && b > 0.0
    ensures Product(a, b) > 0.0
  {
  }

  lemma ProductOfNegatives(a: real, b: real)
    requires a < 0.0 && b < 0.0
    ensures Product(a, b) > 0.0
  {
  }

  lemma ZeroSquare(x: real)
    requires x == 0.0
    ensures Square(x) == 0.0
  {
  }

  /** One place for a neighbour: its squared distance and its index. */
  datatype Slot = Slot(dist: real, neighbor: int)

  /** The distance that marks a place as free. */
  const FAR: real := 4294967295.0

  // ---- Insertion ----

  /** Insert below everything at most as far away. */
  function Placed(s: seq<Slot>, x: Slot): (r: seq<Slot>)
    ensures |r| == |s| + 1
  {
    if s == [] || s[|s| - 1].dist <= x.dist then s + [x]
    else Placed(s[..|s| - 1], x) + [s[|s| - 1]]
  }

  /** A candidate that is closer than the last place pushes it out. */
  function Insert(s: seq<Slot>, x: Slot): (r: seq<Slot>)
    requires |s| > 0
    ensures |r| == |s|
  {
    if x.dist < s[|s| - 1].dist then Placed(s[..|s| - 1], x) else s
  }

  /**
   The insertion as the code runs it, moving places down from the bottom. The place below the first is looked at, but
   has no say.
   */
  method InsertSlot(s: seq<Slot>, x: Slot, outside: real) returns (r: seq<Slot>)
    requires |s| > 0
    ensures r == Insert(s, x)
  {
    r := s;
    if x.dist < r[|r| - 1].dist {
      var j := |r| - 1;
      while x.dist < (if j == 0 then outside else r[j - 1].dist) && j > 0
        invariant 0 <= j < |s| == |r| && r[..j] == s[..j]
        invariant Insert(s, x) == Placed(s[..j], x) + r[j + 1..]
        decreases j
      {
        assert s[..j][..j - 1] == s[..j - 1];
        var moved := r[j - 1];
        ghost var below := r[j + 1..];
        r := r[j := moved];
        assert r[j..] == [moved] + below;
        j := j - 1;
      }
      assert Placed(s[..j], x) == s[..j] + [x];
      r := r[j := x];
      assert r == s[..j] + [x] + r[j + 1..];
    }
  }

  /** Free places, with whatever indices they held before. */
  function Freed(s: seq<Slot>): (r: seq<Slot>)
    ensures |r| == |s| && forall j :: 0 <= j < |s| ==> r[j] == Slot(FAR, s[j].neighbor)
  {
    seq(|s|, j requires 0 <= j < |s| => Slot(FAR, s[j].neighbor))
  }

  /** The places after the first i boids were looked at. */
  function Scanned(pos: seq<Point>, me: nat, i: nat, s: seq<Slot>): (r: seq<Slot>)
    requires me < |pos| && i <= |pos| && |s| > 0
    ensures |r| == |s|
  {
    if i == 0 then Freed(s)
    else if i - 1 == me then Scanned(pos, me, i - 1, s)
    else Insert(Scanned(pos, me, i - 1, s), Slot(DistSqr(pos[me], pos[i - 1]), i - 1))
  }

  /** The search as the code runs it, with its special case for one neighbour. */
  method FindNeighbors(pos: seq<Point>, me: nat, s: seq<Slot>, outside: real) returns (r: seq<Slot>)
    requires me < |pos| && |s| > 0
    ensures r == Scanned(pos, me, |pos|, s)
  {
    hide DistSqr;
    r := s;
    if |s| == 1 {
      r := [Slot(FAR, s[0].neighbor)];
      for i := 0 to |pos|
        invariant r == Scanned(pos, me, i, s)
      {
        if i != me {
          var d := DistSqr(pos[me], pos[i]);
          if r[0].dist > d {
            assert r[..0] == [];
            r := [Slot(d, i)];
          }
        }
      }
    } else {
      for j := 0 to |s|
        invariant |r| == |s| && r[..j] == Freed(s)[..j] && r[j..] == s[j..]
      {
        r := r[j := Slot(FAR, r[j].neighbor)];
      }
      for i := 0 to |pos|
        invariant r == Scanned(pos, me, i, s)
      {
        if i != me {
          r := InsertSlot(r, Slot(DistSqr(pos[me], pos[i]), i), outside);
        }
      }
    }
  }

  // ---- What the search finds ----

  /** Closer, or as close and earlier in the flock. */
  predicate Before(a: Slot, b: Slot) {
    a.dist < b.dist || (a.dist == b.dist && a.neighbor < b.neighbor)
  }

  function Candidate(pos: seq<Point>, me: nat, c: nat): Slot
    requires me < |pos| && c < |pos|
  {
    Slot(DistSqr(pos[me], pos[c]), c)
  }

  /** A boid among the first i that is in question: another one, and not too far to be measured. */
  predicate InQuestion(pos: seq<Point>, me: nat, i: nat, c: int)
    requires me < |pos| && i <= |pos|
  {
    0 <= c < i && c != me && DistSqr(pos[me], pos[c]) < FAR
  }

  /** The first m places hold boids in question, each with its true distance; the others are free. */
  ghost predicate Holds(pos: seq<Point>, me: nat, i: nat, r: seq<Slot>, m: nat, was: seq<Slot>)
    requires me < |pos| && i <= |pos|
  {
    && m <= |r| == |was|
    && (forall j :: 0 <= j < m ==> InQuestion(pos, me, i, r[j].neighbor) && r[j] == Candidate(pos, me, r[j].neighbor))
    && (forall j :: m <= j < |r| ==> r[j] == Slot(FAR, was[j - m].neighbor))
  }

  ghost predicate Sorted(r: seq<Slot>, m: nat) {
    m <= |r| && forall a, b :: 0 <= a < b < m ==> Before(r[a], r[b])
  }

  /** Whoever is in question and has no place comes after every place, and then there is no free one. */
  ghost predicate Complete(pos: seq<Point>, me: nat, i: nat, r: seq<Slot>, m: nat)
    requires me < |pos| && i <= |pos|
  {
    m <= |r| && forall c :: InQuestion(pos, me, i, c) ==> Served(pos, me, r, m, c)
  }

  ghost predicate Served(pos: seq<Point>, me: nat, r: seq<Slot>, m: nat, c: nat)
    requires me < |pos| && c < |pos| && m <= |r|
  {
    (exists j :: 0 <= j < m && r[j].neighbor == c) || (m == |r| && forall j :: 0 <= j < m ==>
      Before(r[j], Candidate(pos, me, c)))
  }

  ghost predicate Nearest(pos: seq<Point>, me: nat, i: nat, r: seq<Slot>, m: nat, was: seq<Slot>)
    requires me < |pos| && i <= |pos|
  {
    Holds(pos, me, i, r, m, was) && Sorted(r, m) && Complete(pos, me, i, r, m)
  }

  /** Where an insertion puts the candidate: after everything at most as far, in order. */
  lemma {:induction false} PlacedAt(s: seq<Slot>, x: Slot) returns (p: nat)
    ensures p <= |s| && Placed(s, x) == s[..p] + [x] + s[p..]
    ensures p > 0 ==> s[p - 1].dist <= x.dist
    ensures forall j :: p <= j < |s| ==> x.dist < s[j].dist
  {
    if s == [] || s[|s| - 1].dist <= x.dist {
      p := |s|;
      assert s[..p] == s;
    } else {
      var n := |s| - 1;
      p := PlacedAt(s[..n], x);
      assert s[..n][..p] == s[..p] && s[..n][p..] + [s[n]] == s[p..];
    }
  }

  /** How an insertion moves the places. */
  ghost predicate Inserted(s: seq<Slot>, r: seq<Slot>, x: Slot, p: nat) {
    && p < |s| == |r| && r[p] == x
    && (forall j :: 0 <= j < p ==> r[j] == s[j])
    && (forall j :: p < j < |s| ==> r[j] == s[j - 1])
    && (forall j :: p <= j < |s| ==> x.dist < s[j].dist)
    && (p > 0 ==> s[p - 1].dist <= x.dist)
  }

  lemma InsertAt(s: seq<Slot>, x: Slot) returns (p: nat)
    requires |s| > 0 && x.dist < s[|s| - 1].dist
    ensures Inserted(s, Insert(s, x), x, p)
  {
    p := PlacedAt(s[..|s| - 1], x);
    assert s[..|s| - 1][p..] == s[p..|s| - 1];
  }

  /** A candidate in question that is taken in. */
  lemma TakenIn(pos: seq<Point>, me: nat, i: nat, s: seq<Slot>, m: nat, was: seq<Slot>, r: seq<Slot>, p: nat)
    requires me < |pos| && i < |pos| && i != me && |s| > 0 && Nearest(pos, me, i, s, m, was)
    requires InQuestion(pos, me, i + 1, i) && Inserted(s, r, Candidate(pos, me, i), p)
    ensures Nearest(pos, me, i + 1, r, if m < |s| then m + 1 else m, was)
  {
    hide DistSqr;
    var n := if m < |s| then m + 1 else m;
    var x := Candidate(pos, me, i);
    assert p <= m;
    HeldAfter(pos, me, i, s, m, was, r, p);
    assert p > 0 ==> Before(s[p - 1], x);
    forall a, b | 0 <= a < b < n
      ensures Before(r[a], r[b])
    {
      var a' := if a > p then a - 1 else a;
      var b' := if b > p then b - 1 else b;
      assert a' < b' ==> b' < m ==> Before(s[a'], s[b']);
      if b == p {
        assert a < p - 1 ==> Before(s[a], s[p - 1]);
      }
    }
    CompleteAfter(pos, me, i, s, m, was, r, p);
  }

  lemma HeldAfter(pos: seq<Point>, me: nat, i: nat, s: seq<Slot>, m: nat, was: seq<Slot>, r: seq<Slot>, p: nat)
    requires me < |pos| && i < |pos| && i != me && |s| > 0 && Holds(pos, me, i, s, m, was) && p <= m
    requires InQuestion(pos, me, i + 1, i) && Inserted(s, r, Candidate(pos, me, i), p)
    ensures Holds(pos, me, i + 1, r, if m < |s| then m + 1 else m, was)
  {
    hide DistSqr;
    var n := if m < |s| then m + 1 else m;
    forall j | 0 <= j < n
      ensures InQuestion(pos, me, i + 1, r[j].neighbor) && r[j] == Candidate(pos, me, r[j].neighbor)
    {
      if j > p {
        assert InQuestion(pos, me, i, s[j - 1].neighbor);
      } else if j < p {
        assert InQuestion(pos, me, i, s[j].neighbor);
      }
    }
  }

  lemma CompleteAfter(pos: seq<Point>, me: nat, i: nat, s: seq<Slot>, m: nat, was: seq<Slot>, r: seq<Slot>, p: nat)
    requires me < |pos| && i < |pos| && i != me && |s| > 0 && Nearest(pos, me, i, s, m, was) && p <= m
    requires InQuestion(pos, me, i + 1, i) && Inserted(s, r, Candidate(pos, me, i), p)
    ensures Complete(pos, me, i + 1, r, if m < |s| then m + 1 else m)
  {
    hide DistSqr;
    var n := if m < |s| then m + 1 else m;
    forall c | InQuestion(pos, me, i + 1, c)
      ensures Served(pos, me, r, n, c)
    {
      if c == i {
        assert r[p].neighbor == c && p < n;
      } else {
        assert InQuestion(pos, me, i, c);
        assert Served(pos, me, s, m, c);
        if j :| 0 <= j < m && s[j].neighbor == c {
          KeptOrPushedOut(pos, me, i, s, m, was, r, p, j);
        } else {
          var x := Candidate(pos, me, c);
          assert Before(s[m - 1], x);
          assert Before(r[p], x);
          forall j | 0 <= j < n
            ensures Before(r[j], x)
          {
            assert j > p ==> Before(s[j - 1], x);
          }
        }
      }
    }
  }

  lemma KeptOrPushedOut(pos: seq<Point>, me: nat, i: nat, s: seq<Slot>, m: nat, was: seq<Slot>, r: seq<Slot>, p: nat,
      j: nat)
    requires me < |pos| && i < |pos| && i != me && |s| > 0 && Holds(pos, me, i, s, m, was) && Sorted(s, m) && p <= m
    requires InQuestion(pos, me, i + 1, i) && Inserted(s, r, Candidate(pos, me, i), p) && j < m
    ensures 0 <= s[j].neighbor < |pos| && Served(pos, me, r, if m < |s| then m + 1 else m, s[j].neighbor)
  {
    hide DistSqr;
    assert InQuestion(pos, me, i, s[j].neighbor);
    if j < p {
      assert r[j].neighbor == s[j].neighbor;
    } else if j + 1 < |s| {
      assert r[j + 1].neighbor == s[j].neighbor;
    } else {
      assert forall k :: 0 <= k < j ==> Before(s[k], s[j]);
    }
  }

  /** A boid that is left out: oneself, too far away, or after a full row of nearer ones. */
  lemma LeftOut(pos: seq<Point>, me: nat, i: nat, s: seq<Slot>, m: nat, was: seq<Slot>)
    requires me < |pos| && i < |pos| && |s| > 0 && Nearest(pos, me, i, s, m, was)
    requires i == me || s[|s| - 1].dist <= DistSqr(pos[me], pos[i])
    ensures Nearest(pos, me, i + 1, s, m, was)
  {
    hide DistSqr;
    assert forall j :: 0 <= j < m ==> InQuestion(pos, me, i + 1, s[j].neighbor);
    forall c | InQuestion(pos, me, i + 1, c)
      ensures Served(pos, me, s, m, c)
    {
      if c == i {
        assert m == |s|;
        assert Before(s[m - 1], Candidate(pos, me, c));
        forall j | 0 <= j < m
          ensures Before(s[j], Candidate(pos, me, c))
        {
          assert j < m - 1 ==> Before(s[j], s[m - 1]);
        }
      } else {
        assert InQuestion(pos, me, i, c);
        assert Served(pos, me, s, m, c);
      }
    }
  }

  /** One boid looked at. */
  function Looked(pos: seq<Point>, me: nat, i: nat, s: seq<Slot>): seq<Slot>
    requires me < |pos| && i < |pos| && |s| > 0
  {
    if i == me then s else Insert(s, Candidate(pos, me, i))
  }

  lemma LookedNearest(pos: seq<Point>, me: nat, i: nat, s: seq<Slot>, m: nat, was: seq<Slot>) returns (n: nat)
    requires me < |pos| && i < |pos| && |s| > 0 && Nearest(pos, me, i, s, m, was)
    ensures Nearest(pos, me, i + 1, Looked(pos, me, i, s), n, was)
  {
    var x := Candidate(pos, me, i);
    n := m;
    if i == me || s[|s| - 1].dist <= x.dist {
      LeftOut(pos, me, i, s, m, was);
    } else {
      if m == |s| {
        assert InQuestion(pos, me, i, s[|s| - 1].neighbor);
      }
      assert s[|s| - 1].dist <= FAR;
      var p := InsertAt(s, x);
      hide *;
      TakenIn(pos, me, i, s, m, was, Insert(s, x), p);
      n := if m < |s| then m + 1 else m;
    }
  }

  lemma {:induction false} ScannedNearest(pos: seq<Point>, me: nat, i: nat, was: seq<Slot>) returns (m: nat)
    requires me < |pos| && i <= |pos| && |was| > 0
    ensures Nearest(pos, me, i, Scanned(pos, me, i, was), m, was)
  {
    if i == 0 {
      m := 0;
    } else {
      hide *;
      m := ScannedNearest(pos, me, i - 1, was);
      ScannedNext(pos, me, i - 1, was);
      m := LookedNearest(pos, me, i - 1, Scanned(pos, me, i - 1, was), m, was);
    }
  }

  lemma ScannedNext(pos: seq<Point>, me: nat, i: nat, was: seq<Slot>)
    requires me < |pos| && i < |pos| && |was| > 0
    ensures Scanned(pos, me, i + 1, was) == Looked(pos, me, i, Scanned(pos, me, i, was))
  {
    hide Insert, DistSqr;
  }

  /** Whatever is selected is at most as far away as whatever is not. */
  lemma NearestIsClosest(pos: seq<Point>, me: nat, was: seq<Slot>, r: seq<Slot>, m: nat, c: int, j: int)
    requires me < |pos| && Nearest(pos, me, |pos|, r, m, was) && 0 <= j < m
    requires 0 <= c < |pos| && c != me && forall k :: 0 <= k < m ==> r[k].neighbor != c
    ensures r[j].dist == DistSqr(pos[me], pos[r[j].neighbor]) <= DistSqr(pos[me], pos[c])
    ensures r[j].neighbor != me && forall k :: 0 <= k < m && k != j ==> r[k].neighbor != r[j].neighbor
  {
    hide DistSqr;
    assert InQuestion(pos, me, |pos|, r[j].neighbor);
    if InQuestion(pos, me, |pos|, c) {
      assert Before(r[j], Candidate(pos, me, c));
    }
    forall k | 0 <= k < m && k != j
      ensures r[k].neighbor != r[j].neighbor
    {
      assert if k < j then Before(r[k], r[j]) else Before(r[j], r[k]);
      assert r[k] == Candidate(pos, me, r[k].neighbor);
    }
  }
}
