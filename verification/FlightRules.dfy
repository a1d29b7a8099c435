/**
 What a step of boids2d's flight does to a boid, told without the step's own formulas: which way each force draws, how
 the forces are weighed, and which direction, speed and place come of it. Roots and divisions are taken as exact here.
 */
module FlightRules {
  import opened Neighbors
  import opened Samples
  import opened RealSums
  import opened Flight

  ghost predicate Exact(ar: Arithmetic) {
    && (forall x, y :: y != 0.0 ==> ar.quotient(x, y) * y == x)
    && forall x :: x >= 0.0 ==> ar.root(x) >= 0.0 && Square(ar.root(x)) == x
  }

  lemma Divides(ar: Arithmetic, x: real, y: real)
    requires Exact(ar) && y != 0.0
    ensures ar.quotient(x, y) * y == x
  {
  }

  lemma Roots(ar: Arithmetic, x: real)
    requires Exact(ar) && x >= 0.0
    ensures ar.root(x) >= 0.0 && Square(ar.root(x)) == x
  {
  }

  // ---- Directions ----

  /** v is k times as long as d, the same way. */
  ghost predicate Along(v: Point, d: Point, k: real) {
    k > 0.0 && v.x == d.x * k && v.y == d.y * k
  }

  predicate Unit(d: Point) { Square(d.x) + Square(d.y) == 1.0 }

  /** d is the way that v goes, at length one, or nothing where v is nothing. */
  ghost predicate Directed(d: Point, v: Point) {
    if v == Point(0.0, 0.0) then d == v else Unit(d) && exists k :: Along(v, d, k)
  }

  lemma NormalizedDirected(ar: Arithmetic, v: Point)
    requires Exact(ar)
    ensures Directed(Normalized(ar, v), v)
  {
    hide Exact, Unit, Length, Square;
    LengthSquare(ar, v);
    var length := Length(ar, v);
    if v != Point(0.0, 0.0) {
      Divides(ar, v.x, length);
      Divides(ar, v.y, length);
      var d := Normalized(ar, v);
      assert Along(v, d, length);
      UnitLength(v, d, length);
    }
  }

  lemma LengthSquare(ar: Arithmetic, v: Point)
    requires Exact(ar)
    ensures var length := Length(ar, v);
      && Square(length) == Square(v.x) + Square(v.y) && length >= 0.0
      && (length == 0.0 <==> v == Point(0.0, 0.0))
  {
    hide Exact, Square;
    SquareSign(v.x);
    SquareSign(v.y);
    Roots(ar, Square(v.x) + Square(v.y));
    SquareSign(Length(ar, v));
  }

  lemma UnitLength(v: Point, d: Point, k: real)
    requires k > 0.0 && v.x == d.x * k && v.y == d.y * k && Square(k) == Square(v.x) + Square(v.y)
    ensures Unit(d)
  {
    SquareTimes(v.x, d.x, k);
    SquareTimes(v.y, d.y, k);
    SquareSign(k);
    hide Square;
    OnlyOne(Square(d.x), Square(d.y), Square(k), Square(v.x), Square(v.y));
  }

  lemma SquareTimes(x: real, y: real, k: real)
    requires x == y * k
    ensures Square(x) == Square(y) * Square(k)
  {
  }

  lemma OnlyOne(a: real, b: real, k: real, x: real, y: real)
    requires k != 0.0 && x == a * k && y == b * k && x + y == k
    ensures a + b == 1.0
  {
    assert (a + b - 1.0) * k == x + y - k;
    NoFactor(a + b - 1.0, k);
  }

  lemma NoFactor(w: real, k: real)
    requires k != 0.0 && w * k == 0.0
    ensures w == 0.0
  {
  }

  // ---- Forces ----

  /** Boid i of a step, when its neighbours have been found. */
  function Found(s: Settings, flock: seq<Boid>, i: nat): Boid
    requires ValidFlock(flock, s) && i < |flock|
  {
    Searched(s, Positions(SavedFlock(flock)), i, Saved(flock[i]))
  }

  function InfluencesIn(ar: Arithmetic, s: Settings, flock: seq<Boid>, i: nat): Influence
    requires ValidFlock(flock, s) && i < |flock|
  {
    var saved := SavedFlock(flock);
    Influences(ar, s, Positions(saved), Directions(saved), Found(s, flock, i), s.numNeighbors)
  }

  /** The forces on boid i in a step. */
  function ForcesIn(ar: Arithmetic, s: Settings, flock: seq<Boid>, i: nat): Forces
    requires ValidFlock(flock, s) && i < |flock|
  {
    ForcesOn(ar, s, Center(ar, flock), Found(s, flock, i), InfluencesIn(ar, s, flock, i))
  }

  /** The new direction of boid i, before its length is brought to one. */
  function WishIn(ar: Arithmetic, s: Settings, flock: seq<Boid>, i: nat): Point
    requires ValidFlock(flock, s) && i < |flock|
  {
    Wish(ar, s, flock[i].newDir, ForcesIn(ar, s, flock, i))
  }

  /** The speed that its neighbours give boid i, before its limits. */
  function PaceIn(ar: Arithmetic, s: Settings, flock: seq<Boid>, i: nat): real
    requires ValidFlock(flock, s) && i < |flock|
  {
    if s.numNeighbors > 0 then InfluencesIn(ar, s, flock, i).speed else 0.0
  }

  /** Where along an axis a boid looks: ahead by its speed and the distance it keeps from edges. */
  function LooksTo(at: real, dir: real, speed: real, edgeDist: real): real { at + dir * speed * edgeDist }

  /**
   How a wall pushes a boid that comes from outside its bounds, or looks beyond them: inwards, as hard as it flies.
   */
  predicate PushesInwards(push: real, ahead: real, low: real, high: real, dir: real) {
    && (ahead < low ==> push >= 0.0 && Square(push) == Square(dir))
    && (ahead >= low && ahead > high ==> push <= 0.0 && Square(push) == Square(dir))
    && (low <= ahead <= high ==> push == 0.0)
  }

  /** The walls push a boid inwards exactly when the point that it looks ahead to is beyond them. */
  lemma WallsPush(ar: Arithmetic, s: Settings, flock: seq<Boid>, i: nat)
    requires ValidFlock(flock, s) && i < |flock|
    ensures var b, w := flock[i], ForcesIn(ar, s, flock, i).walls;
      && PushesInwards(w.x, LooksTo(b.newPos.x, b.newDir.x, b.speed, s.edgeDist), s.fly.left, s.fly.right, b.newDir.x)
      && PushesInwards(w.y, LooksTo(b.newPos.y, b.newDir.y, b.speed, s.edgeDist), s.fly.top, s.fly.bottom, b.newDir.y)
  {
    hide Center, Influences, Matching, Avoiding, Seek, AvoidWalls, PushesInwards, LooksTo, Searched;
    WallsPushBoid(s, Found(s, flock, i));
  }

  lemma WallsPushBoid(s: Settings, b: Boid)
    ensures var w := AvoidWalls(s, b);
      && PushesInwards(w.x, LooksTo(b.oldPos.x, b.oldDir.x, b.speed, s.edgeDist), s.fly.left, s.fly.right, b.oldDir.x)
      && PushesInwards(w.y, LooksTo(b.oldPos.y, b.oldDir.y, b.speed, s.edgeDist), s.fly.top, s.fly.bottom, b.oldDir.y)
  {
    AbsSquare(b.oldDir.x);
    AbsSquare(b.oldDir.y);
    hide Abs, Square;
  }

  lemma AbsSquare(x: real)
    ensures Abs(x) >= 0.0 && Square(Abs(x)) == Square(x) && Square(-Abs(x)) == Square(x)
  {
  }

  /** The mean of the positions saved in the step before. */
  ghost predicate IsMean(c: Point, flock: seq<Boid>) {
    SumsTo(Point(c.x * |flock| as real, c.y * |flock| as real), SavedAt(flock), |flock|)
  }

  ghost function SavedAt(flock: seq<Boid>): int -> Point {
    j => if 0 <= j < |flock| then flock[j].oldPos else Point(0.0, 0.0)
  }

  lemma {:induction false} TotalsSum(flock: seq<Boid>, n: nat)
    requires n <= |flock|
    ensures SumsTo(Totals(flock, n), SavedAt(flock), n)
  {
    if n > 0 {
      TotalsSum(flock, n - 1);
      hide SumsTo;
      SumsNext(Totals(flock, n - 1), Totals(flock, n), SavedAt(flock), n - 1);
    }
  }

  lemma CenterIsMean(ar: Arithmetic, flock: seq<Boid>)
    requires Exact(ar) && |flock| > 0
    ensures IsMean(Center(ar, flock), flock)
  {
    TotalsSum(flock, |flock|);
    var t, c := Totals(flock, |flock|), Center(ar, flock);
    Divides(ar, t.x, |flock| as real);
    Divides(ar, t.y, |flock| as real);
    hide Exact, SumsTo;
    assert Point(c.x * |flock| as real, c.y * |flock| as real) == t;
  }

  /** A boid is drawn straight to the flock's mean position, and straight to the point of attraction. */
  lemma SeeksCenter(ar: Arithmetic, s: Settings, flock: seq<Boid>, i: nat)
    requires ValidFlock(flock, s) && i < |flock| && Exact(ar)
    ensures var at, f := flock[i].newPos, ForcesIn(ar, s, flock, i);
      && IsMean(Center(ar, flock), flock)
      && Directed(f.center, Point(Center(ar, flock).x - at.x, Center(ar, flock).y - at.y))
      && Directed(f.attract, Point(s.attractPt.x - at.x, s.attractPt.y - at.y))
  {
    CenterIsMean(ar, flock);
    hide Exact, Directed, IsMean, Center, AvoidWalls, Matching, Avoiding, Influences, Seek, Searched;
    SeekDirected(ar, Found(s, flock, i), Center(ar, flock));
    SeekDirected(ar, Found(s, flock, i), s.attractPt);
  }

  lemma SeekDirected(ar: Arithmetic, b: Boid, p: Point)
    requires Exact(ar)
    ensures Directed(Seek(ar, b, p), Point(p.x - b.oldPos.x, p.y - b.oldPos.y))
  {
    hide Exact, Directed, Normalized;
    NormalizedDirected(ar, Point(p.x - b.oldPos.x, p.y - b.oldPos.y));
  }

  /**
   The neighbours' directions are summed, and brought to length one if a neighbour is near; the pushes of those near
   are averaged.
   */
  lemma NeighborForces(ar: Arithmetic, s: Settings, flock: seq<Boid>, i: nat) returns (sum: Point, pushes: Point)
    requires ValidFlock(flock, s) && i < |flock| && Exact(ar)
    ensures var f, b, n := ForcesIn(ar, s, flock, i), Found(s, flock, i), s.numNeighbors;
      var close := |NearPlaces(s, b, n)|;
      && SumsTo(sum, DirectionsAt(Directions(SavedFlock(flock)), b), n)
      && SumsTo(pushes, PushesAt(ar, s, Positions(SavedFlock(flock)), b), n)
      && (n == 0 ==> f.matching == f.avoid == Point(0.0, 0.0))
      && (n > 0 && close > 0 ==>
            && Directed(f.matching, sum)
            && f.avoid.x * close as real == pushes.x && f.avoid.y * close as real == pushes.y)
      && (n > 0 && close == 0 ==> f.matching == sum && f.avoid == Point(0.0, 0.0))
  {
    hide Exact, Directed, SumsTo, AvoidWalls, Influences, Normalized, Seek, Center, NearPlaces;
    var saved, b := SavedFlock(flock), Found(s, flock, i);
    InfluencesSum(ar, s, Positions(saved), Directions(saved), b, s.numNeighbors);
    var g := InfluencesIn(ar, s, flock, i);
    sum, pushes := g.matching, g.total;
    if g.close > 0 {
      NormalizedDirected(ar, g.matching);
      Divides(ar, g.total.x, g.close as real);
      Divides(ar, g.total.y, g.close as real);
    }
  }

  /** A near neighbour pushes straight away, by the distance and the preferred distance together. */
  lemma PushesAway(ar: Arithmetic, s: Settings, b: Boid, pos: Point)
    requires Exact(ar) && pos != b.oldPos
    ensures var square := DistSqr(b.oldPos, pos); var dist, push := ar.root(square), Push(ar, s, b, pos, square);
      && dist > 0.0 && Square(dist) == square
      && push.x * dist == (b.oldPos.x - pos.x) * (dist + s.prefDist)
      && push.y * dist == (b.oldPos.y - pos.y) * (dist + s.prefDist)
  {
    var h, v, square := b.oldPos.x - pos.x, b.oldPos.y - pos.y, DistSqr(b.oldPos, pos);
    assert square == Square(h) + Square(v);
    hide Exact, Square, DistSqr;
    SquareSign(h);
    SquareSign(v);
    Roots(ar, square);
    var dist := ar.root(square);
    SquareSign(dist);
    Divides(ar, s.prefDist, dist);
    Away(h, ar.quotient(s.prefDist, dist), dist, s.prefDist);
    Away(v, ar.quotient(s.prefDist, dist), dist, s.prefDist);
  }

  lemma Away(away: real, q: real, dist: real, prefDist: real)
    requires q * dist == prefDist
    ensures Repelled(away, q) * dist == away * (dist + prefDist)
  {
    assert away * (1.0 + q) * dist == away * (dist + q * dist);
  }

  // ---- Direction, speed and place ----

  /** One component of all forces by their weights. */
  function Weighed(s: Settings, center: real, attract: real, matching: real, avoid: real, walls: real): real {
    s.centerWeight * center + s.attractWeight * attract + s.matchWeight * matching + s.avoidWeight * avoid
      + s.wallsWeight * walls
  }

  /** x is `inertia` times dir, and the force by the inverse of it. */
  predicate Bends(x: real, dir: real, inertia: real, force: real) {
    (x - inertia * dir) * inertia == force
  }

  /** Inertia keeps a boid to its direction, the weighed forces bend it, and the length comes out as one. */
  lemma StepDirection(ar: Arithmetic, s: Settings, flock: seq<Boid>, i: nat)
    requires ValidFlock(flock, s) && i < |flock| && Exact(ar) && s.inertiaFactor != 0.0
    ensures var b, f, wish := flock[i], ForcesIn(ar, s, flock, i), WishIn(ar, s, flock, i);
      && Bends(wish.x, b.newDir.x, s.inertiaFactor,
        Weighed(s, f.center.x, f.attract.x, f.matching.x, f.avoid.x, f.walls.x))
      && Bends(wish.y, b.newDir.y, s.inertiaFactor,
        Weighed(s, f.center.y, f.attract.y, f.matching.y, f.avoid.y, f.walls.y))
      && Directed(Simultaneous(ar, s, flock)[i].newDir, wish)
  {
    var f, dir := ForcesIn(ar, s, flock, i), flock[i].newDir;
    hide Exact, Directed, ForcesOn, Influences, Normalized, Bends, Resultant, Weighed, Center, Searched, Moved;
    NormalizedDirected(ar, WishIn(ar, s, flock, i));
    ResultantBends(ar, s, dir.x, f.center.x, f.attract.x, f.matching.x, f.avoid.x, f.walls.x);
    ResultantBends(ar, s, dir.y, f.center.y, f.attract.y, f.matching.y, f.avoid.y, f.walls.y);
    assert Found(s, flock, i).oldDir == dir;
  }

  lemma ResultantBends(ar: Arithmetic, s: Settings, dir: real, center: real, attract: real, matching: real,
    avoid: real, walls: real)
    requires Exact(ar) && s.inertiaFactor != 0.0
    ensures Bends(Resultant(ar, s, dir, center, attract, matching, avoid, walls), dir, s.inertiaFactor,
      Weighed(s, center, attract, matching, avoid, walls))
  {
    hide Exact;
    Divides(ar, Weighed(s, center, attract, matching, avoid, walls), s.inertiaFactor);
  }

  predicate Between(x: real, low: real, high: real) { low <= x <= high }

  /** The new speed is the one within the limits that is nearest to what the neighbours give; without any, to none. */
  lemma StepSpeed(ar: Arithmetic, s: Settings, flock: seq<Boid>, i: nat)
    requires ValidFlock(flock, s) && i < |flock| && s.minSpeed <= s.maxSpeed
    ensures var pace, speed := PaceIn(ar, s, flock, i), Simultaneous(ar, s, flock)[i].speed;
      && s.minSpeed <= speed <= s.maxSpeed
      && (forall z :: Between(z, s.minSpeed, s.maxSpeed) ==> Abs(speed - pace) <= Abs(z - pace))
      && (s.numNeighbors == 0 ==> pace == 0.0)
      && (s.numNeighbors > 0 && DividesExactly(ar, s.accelFactor / 100.0) ==>
            var b := Found(s, flock, i);
            var d := |DividingPlaces(ar, s, Positions(SavedFlock(flock)), b, s.numNeighbors)|;
            d <= s.numNeighbors && Scaled(flock[i].speed, pace, s.accelFactor / 100.0, d, s.numNeighbors - d))
  {
    hide Influences, Normalized, Wish, ForcesOn, Center, Moved, DividesExactly, Scaled, DividingPlaces;
    var saved, b := SavedFlock(flock), Found(s, flock, i);
    if s.numNeighbors > 0 && DividesExactly(ar, s.accelFactor / 100.0) {
      InfluencesSpeed(ar, s, Positions(saved), Directions(saved), b, s.numNeighbors);
    }
  }

  /** A boid moves its way by its speed, times the speedup in percent. */
  lemma StepMoves(ar: Arithmetic, s: Settings, flock: seq<Boid>, i: nat)
    requires ValidFlock(flock, s) && i < |flock|
    ensures var b, r := flock[i], Simultaneous(ar, s, flock)[i];
      && r.oldPos == b.newPos && r.oldDir == b.newDir
      && 100.0 * (r.newPos.x - b.newPos.x) == r.newDir.x * r.speed * s.speedupFactor
      && 100.0 * (r.newPos.y - b.newPos.y) == r.newDir.y * r.speed * s.speedupFactor
  {
    hide Influences, Normalized, Wish, ForcesOn, Center, Limited;
    var b, r := flock[i], Simultaneous(ar, s, flock)[i];
    hide Searched;
    assert r.newPos == Moved(s, b.newPos, r.newDir, r.speed);
    Percent(r.newDir.x * r.speed, s.speedupFactor);
    Percent(r.newDir.y * r.speed, s.speedupFactor);
  }

  lemma Percent(a: real, f: real)
    ensures 100.0 * (a * (f / 100.0)) == a * f
  {
  }

  // ---- Walls ----

  /** A direction with the walls, x, and without them, bare: never further out beyond a wall, and the same between. */
  predicate KeptIn(x: real, bare: real, ahead: real, low: real, high: real, pushed: bool) {
    && (ahead < low ==> x >= bare && (pushed ==> x > bare))
    && (ahead >= low && ahead > high ==> x <= bare && (pushed ==> x < bare))
    && (low <= ahead <= high ==> x == bare)
  }

  /**
   With a weight that is not negative the walls never turn a boid further out than all the other forces would; with a
   positive one they do turn it inwards whenever it moves along that axis and looks beyond a wall.
   */
  lemma WallsNeverPushOut(ar: Arithmetic, s: Settings, flock: seq<Boid>, i: nat, bare: Point)
    requires ValidFlock(flock, s) && i < |flock| && Exact(ar) && s.wallsWeight >= 0.0 && s.inertiaFactor > 0.0
    requires var b, f := flock[i], ForcesIn(ar, s, flock, i);
      && Bends(bare.x, b.newDir.x, s.inertiaFactor, Weighed(s, f.center.x, f.attract.x, f.matching.x, f.avoid.x, 0.0))
      && Bends(bare.y, b.newDir.y, s.inertiaFactor, Weighed(s, f.center.y, f.attract.y, f.matching.y, f.avoid.y, 0.0))
    ensures var b, wish, heavy := flock[i], WishIn(ar, s, flock, i), s.wallsWeight > 0.0;
      && KeptIn(wish.x, bare.x, LooksTo(b.newPos.x, b.newDir.x, b.speed, s.edgeDist), s.fly.left, s.fly.right,
        heavy && b.newDir.x != 0.0)
      && KeptIn(wish.y, bare.y, LooksTo(b.newPos.y, b.newDir.y, b.speed, s.edgeDist), s.fly.top, s.fly.bottom,
        heavy && b.newDir.y != 0.0)
  {
    var b, f, wish := flock[i], ForcesIn(ar, s, flock, i), WishIn(ar, s, flock, i);
    WallsPush(ar, s, flock, i);
    StepDirection(ar, s, flock, i);
    hide Exact, ForcesIn, WishIn, Bends, Weighed, PushesInwards, KeptIn, Simultaneous, Directed, LooksTo;
    KeptInBy(s, wish.x, bare.x, b.newDir.x, f.center.x, f.attract.x, f.matching.x, f.avoid.x, f.walls.x,
      LooksTo(b.newPos.x, b.newDir.x, b.speed, s.edgeDist), s.fly.left, s.fly.right);
    KeptInBy(s, wish.y, bare.y, b.newDir.y, f.center.y, f.attract.y, f.matching.y, f.avoid.y, f.walls.y,
      LooksTo(b.newPos.y, b.newDir.y, b.speed, s.edgeDist), s.fly.top, s.fly.bottom);
  }

  lemma KeptInBy(s: Settings, x: real, bare: real, dir: real, center: real, attract: real, matching: real, avoid: real,
    push: real, ahead: real, low: real, high: real)
    requires s.wallsWeight >= 0.0 && s.inertiaFactor > 0.0
    requires Bends(x, dir, s.inertiaFactor, Weighed(s, center, attract, matching, avoid, push))
    requires Bends(bare, dir, s.inertiaFactor, Weighed(s, center, attract, matching, avoid, 0.0))
    requires PushesInwards(push, ahead, low, high, dir)
    ensures KeptIn(x, bare, ahead, low, high, s.wallsWeight > 0.0 && dir != 0.0)
  {
    var force := s.wallsWeight * push;
    WeighedWalls(s, center, attract, matching, avoid, push);
    BendsApart(x, bare, dir, s.inertiaFactor, Weighed(s, center, attract, matching, avoid, push),
      Weighed(s, center, attract, matching, avoid, 0.0));
    if Square(push) == Square(dir) {
      SameSquare(push, dir);
    }
    ForceSign(s.wallsWeight, push);
    hide Bends, Weighed, Square;
    ProductSign(x - bare, s.inertiaFactor);
    ProductSign(bare - x, s.inertiaFactor);
    Turned(x - bare, s.inertiaFactor, bare - x);
  }

  lemma WeighedWalls(s: Settings, center: real, attract: real, matching: real, avoid: real, push: real)
    ensures Weighed(s, center, attract, matching, avoid, push)
         == Weighed(s, center, attract, matching, avoid, 0.0) + s.wallsWeight * push
  {
  }

  lemma BendsApart(x: real, bare: real, dir: real, inertia: real, all: real, rest: real)
    requires Bends(x, dir, inertia, all) && Bends(bare, dir, inertia, rest)
    ensures (x - bare) * inertia == all - rest
  {
  }

  lemma SameSquare(x: real, y: real)
    requires Square(x) == Square(y)
    ensures x == 0.0 <==> y == 0.0
  {
    SquareSign(x);
    SquareSign(y);
  }

  lemma ForceSign(weight: real, push: real)
    requires weight >= 0.0
    ensures push >= 0.0 ==> weight * push >= 0.0 && (weight > 0.0 && push != 0.0 ==> weight * push > 0.0)
    ensures push <= 0.0 ==> weight * push <= 0.0 && (weight > 0.0 && push != 0.0 ==> weight * push < 0.0)
    ensures push == 0.0 ==> weight * push == 0.0
  {
    var force := weight * push;
    Turned(weight, push, -weight);
    if push > 0.0 {
      ProductSign(weight, push);
    } else if push < 0.0 {
      ProductSign(weight, -push);
      assert weight * -push == -force;
    }
  }

  lemma Turned(a: real, b: real, c: real)
    requires c == -a
    ensures c * b == -(a * b)
  {
  }

  /**
   Where only the walls have weight, they turn a boid that flies out exactly when they weigh as much as inertia
   squared.
   */
  lemma WallsTurnBack(ar: Arithmetic, s: Settings, flock: seq<Boid>, i: nat)
    requires ValidFlock(flock, s) && i < |flock| && Exact(ar) && s.inertiaFactor > 0.0
    requires s.centerWeight == s.attractWeight == s.matchWeight == s.avoidWeight == 0.0
    ensures var b, r := flock[i], Simultaneous(ar, s, flock)[i];
      var ahead := LooksTo(b.newPos.x, b.newDir.x, b.speed, s.edgeDist);
      && (b.newDir.x < 0.0 && ahead < s.fly.left ==>
            (r.newDir.x >= 0.0 <==> s.wallsWeight >= Square(s.inertiaFactor)))
      && (b.newDir.x > 0.0 && ahead > s.fly.right && ahead >= s.fly.left ==>
            (r.newDir.x <= 0.0 <==> s.wallsWeight >= Square(s.inertiaFactor)))
    ensures var b, r := flock[i], Simultaneous(ar, s, flock)[i];
      var ahead := LooksTo(b.newPos.y, b.newDir.y, b.speed, s.edgeDist);
      && (b.newDir.y < 0.0 && ahead < s.fly.top ==>
            (r.newDir.y >= 0.0 <==> s.wallsWeight >= Square(s.inertiaFactor)))
      && (b.newDir.y > 0.0 && ahead > s.fly.bottom && ahead >= s.fly.top ==>
            (r.newDir.y <= 0.0 <==> s.wallsWeight >= Square(s.inertiaFactor)))
  {
    var b, f, wish, d := flock[i], ForcesIn(ar, s, flock, i), WishIn(ar, s, flock, i),
      Simultaneous(ar, s, flock)[i].newDir;
    WallsPush(ar, s, flock, i);
    StepDirection(ar, s, flock, i);
    DirectedSigns(d, wish);
    hide Exact, ForcesIn, WishIn, Bends, Weighed, Simultaneous, Directed, Square, LooksTo, PushesInwards;
    TurnsAlong(s, wish.x, b.newDir.x, f.center.x, f.attract.x, f.matching.x, f.avoid.x, f.walls.x,
      LooksTo(b.newPos.x, b.newDir.x, b.speed, s.edgeDist), s.fly.left, s.fly.right);
    TurnsAlong(s, wish.y, b.newDir.y, f.center.y, f.attract.y, f.matching.y, f.avoid.y, f.walls.y,
      LooksTo(b.newPos.y, b.newDir.y, b.speed, s.edgeDist), s.fly.top, s.fly.bottom);
  }

  lemma TurnsAlong(s: Settings, x: real, dir: real, center: real, attract: real, matching: real, avoid: real,
    push: real, ahead: real, low: real, high: real)
    requires s.centerWeight == s.attractWeight == s.matchWeight == s.avoidWeight == 0.0 && s.inertiaFactor > 0.0
    requires Bends(x, dir, s.inertiaFactor, Weighed(s, center, attract, matching, avoid, push))
    requires PushesInwards(push, ahead, low, high, dir)
    ensures dir < 0.0 && ahead < low ==> (x >= 0.0 <==> s.wallsWeight >= Square(s.inertiaFactor))
    ensures dir > 0.0 && ahead > high && ahead >= low ==> (x <= 0.0 <==> s.wallsWeight >= Square(s.inertiaFactor))
  {
    OnlyWalls(s, center, attract, matching, avoid, push);
    hide Weighed, Bends, Square;
    if (dir < 0.0 && ahead < low) || (dir > 0.0 && ahead > high && ahead >= low) {
      TurnsWith(x, dir, s.inertiaFactor, s.wallsWeight, push, Weighed(s, center, attract, matching, avoid, push));
    }
  }

  lemma OnlyWalls(s: Settings, center: real, attract: real, matching: real, avoid: real, push: real)
    requires s.centerWeight == s.attractWeight == s.matchWeight == s.avoidWeight == 0.0
    ensures Weighed(s, center, attract, matching, avoid, push) == s.wallsWeight * push
  {
  }

  lemma DirectedSigns(d: Point, v: Point)
    requires Directed(d, v)
    ensures (d.x >= 0.0 <==> v.x >= 0.0) && (d.x <= 0.0 <==> v.x <= 0.0)
    ensures (d.y >= 0.0 <==> v.y >= 0.0) && (d.y <= 0.0 <==> v.y <= 0.0)
  {
    if v != Point(0.0, 0.0) {
      var k :| Along(v, d, k);
      SameSign(v.x, d.x, k);
      SameSign(v.y, d.y, k);
    }
  }

  lemma SameSign(x: real, y: real, k: real)
    requires k > 0.0 && x == y * k
    ensures (x >= 0.0 <==> y >= 0.0) && (x <= 0.0 <==> y <= 0.0)
  {
    ProductSign(y, k);
    ProductSign(-y, k);
    Turned(y, k, -y);
  }

  /** A push against the direction, just as strong. */
  lemma TurnsWith(x: real, dir: real, inertia: real, weight: real, push: real, force: real)
    requires inertia > 0.0 && dir != 0.0 && force == weight * push && Bends(x, dir, inertia, force)
    requires Square(push) == Square(dir)
    ensures dir < 0.0 && push >= 0.0 ==> (x >= 0.0 <==> weight >= Square(inertia))
    ensures dir > 0.0 && push <= 0.0 ==> (x <= 0.0 <==> weight >= Square(inertia))
  {
    if (dir < 0.0 && push >= 0.0) || (dir > 0.0 && push <= 0.0) {
      OppositeOfSame(push, dir);
      var excess := weight - Square(inertia);
      Excess(x, dir, inertia, weight, push, force, excess);
      hide Bends, Square;
      ProductSign(x, inertia);
      ProductSign(-x, inertia);
      Turned(x, inertia, -x);
      if dir < 0.0 {
        ProductSign(excess, push);
        ProductSign(-excess, push);
        Turned(excess, push, -excess);
      } else {
        ProductSign(excess, -push);
        ProductSign(-excess, -push);
        Turned(excess, -push, -excess);
        Flipped(excess, push);
      }
    }
  }

  lemma Flipped(a: real, b: real)
    ensures a * -b == -(a * b)
  {
  }

  lemma Excess(x: real, dir: real, inertia: real, weight: real, push: real, force: real,
    excess: real)
    requires Bends(x, dir, inertia, force) && force == weight * push && push == -dir && excess
      == weight - Square(inertia)
    ensures x * inertia == excess * push
  {
    assert (x - inertia * dir) * inertia == x * inertia - inertia * inertia * dir;
    assert excess * push == weight * push - inertia * inertia * push;
  }

  lemma OppositeOfSame(x: real, y: real)
    requires Square(x) == Square(y) && ((x >= 0.0 && y < 0.0) || (x <= 0.0 && y > 0.0))
    ensures x == -y
  {
    assert (x - y) * (x + y) == Square(x) - Square(y);
    NoFactor(x + y, x - y);
  }

  // ---- In front ----

  function Dot(u: Point, w: Point): real { u.x * w.x + u.y * w.y }

  /** The line that decides, for a boid that does not fly along an axis, runs across this. */
  function Across(b: Boid): Point { Point(b.oldDir.y * b.oldDir.y, b.oldDir.y * b.oldDir.x) }

  function From(b: Boid, p: Point): Point { Point(p.x - b.oldPos.x, p.y - b.oldPos.y) }

  /** What counts as in front, for a boid that does not fly along an axis. */
  lemma InFrontExactly(ar: Arithmetic, b: Boid, p: Point)
    requires Exact(ar) && b.oldDir.x != 0.0 && b.oldDir.y != 0.0
    ensures InFront(ar, b, p) <==>
      if b.oldDir.x > 0.0 then Dot(Across(b), From(b, p)) >= 0.0 else Dot(Across(b), From(b, p)) < 0.0
  {
    var e, grad := Crossing(ar, b, p);
    var h, v := p.x - b.oldPos.x, p.y - b.oldPos.y;
    CrossesAt(h, v, b.oldDir.x, b.oldDir.y, grad, e, h - e);
    var dot := Dot(Across(b), From(b, p));
    assert dot == (h - e) * Square(b.oldDir.y);
    hide Exact, Dot, InFront, Square, Across, From;
    SquareSign(b.oldDir.y);
    SameSign(dot, h - e, Square(b.oldDir.y));
  }

  /** How far along x the line that decides lies, at the height of p. */
  lemma Crossing(ar: Arithmetic, b: Boid, p: Point) returns (e: real, grad: real)
    requires Exact(ar) && b.oldDir.x != 0.0 && b.oldDir.y != 0.0
    ensures grad * b.oldDir.x == -b.oldDir.y && e * grad == p.y - b.oldPos.y
    ensures InFront(ar, b, p) <==> if p.x - b.oldPos.x >= e then b.oldDir.x > 0.0 else b.oldDir.x < 0.0
  {
    Divides(ar, -b.oldDir.y, b.oldDir.x);
    grad := ar.quotient(-b.oldDir.y, b.oldDir.x);
    NotZero(grad, b.oldDir.x, -b.oldDir.y);
    var intercept := b.oldPos.y - grad * b.oldPos.x;
    var x := ar.quotient(p.y - intercept, grad);
    Divides(ar, p.y - intercept, grad);
    hide Exact;
    e := x - b.oldPos.x;
    Shifted(x, b.oldPos.x, grad, p.y - b.oldPos.y, e);
  }

  lemma NotZero(a: real, b: real, c: real)
    requires a * b == c && c != 0.0
    ensures a != 0.0
  {
  }

  lemma Shifted(x: real, o: real, grad: real, v: real, e: real)
    requires e == x - o && x * grad == v + grad * o
    ensures e * grad == v
  {
  }

  lemma CrossesAt(h: real, v: real, dx: real, dy: real, grad: real, e: real, d: real)
    requires grad * dx == -dy && e * grad == v && d == h - e
    ensures dy * dy * h + dy * dx * v == d * Square(dy)
  {
    assert v * dx == e * (grad * dx);
    assert v * dx == -(e * dy);
    assert dy * dx * v == dy * (v * dx);
    assert dy * (v * dx) == -(dy * (e * dy));
    assert d * (dy * dy) == h * (dy * dy) - e * (dy * dy);
  }

  predicate Ahead(b: Boid, p: Point) { Dot(b.oldDir, From(b, p)) > 0.0 }
  predicate Behind(b: Boid, p: Point) { Dot(b.oldDir, From(b, p)) < 0.0 }

  /** All that lies ahead of a boid counts as in front of it, and nothing that lies behind. */
  ghost predicate TellsFront(ar: Arithmetic, b: Boid) {
    forall p :: (Ahead(b, p) ==> InFront(ar, b, p)) && (Behind(b, p) ==> !InFront(ar, b, p))
  }

  /**
   The line that decides what is in front is not perpendicular to the direction: a boid that does not fly along an
   axis can tell front from back exactly when it flies along a diagonal.
   */
  lemma TellsFrontExactly(ar: Arithmetic, b: Boid)
    requires Exact(ar) && b.oldDir.x != 0.0 && b.oldDir.y != 0.0
    ensures TellsFront(ar, b) <==> Square(b.oldDir.x) == Square(b.oldDir.y)
  {
    hide Exact, InFront, Square, Dot, From;
    if Square(b.oldDir.x) == Square(b.oldDir.y) {
      forall p
        ensures (Ahead(b, p) ==> InFront(ar, b, p)) && (Behind(b, p) ==> !InFront(ar, b, p))
      {
        InFrontExactly(ar, b, p);
        DiagonalLine(b.oldDir, From(b, p), Across(b));
      }
    } else {
      var p := Confused(ar, b);
    }
  }

  /** A boid that flies straight up or down always can. */
  lemma VerticalTellsFront(ar: Arithmetic, b: Boid, p: Point)
    requires b.oldDir.x == 0.0 && b.oldDir.y != 0.0
    ensures InFront(ar, b, p) <==> Ahead(b, p)
  {
    var rise, dy := p.y - b.oldPos.y, b.oldDir.y;
    OnlyUp(b.oldDir, From(b, p));
    hide Dot;
    if dy > 0.0 {
      ProductSign(rise, dy);
    } else {
      ProductSign(-rise, -dy);
      Flipped(-rise, dy);
      Turned(rise, dy, -rise);
    }
  }

  lemma OnlyUp(dir: Point, to: Point)
    requires dir.x == 0.0
    ensures Dot(dir, to) == to.y * dir.y
  {
  }

  lemma DiagonalLine(dir: Point, to: Point, across: Point)
    requires Square(dir.x) == Square(dir.y) && across == Point(dir.y * dir.y, dir.y * dir.x) && dir.x != 0.0
    ensures dir.x > 0.0 ==> (Dot(across, to) >= 0.0 <==> Dot(dir, to) >= 0.0)
    ensures dir.x < 0.0 ==> (Dot(across, to) < 0.0 <==> Dot(dir, to) > 0.0)
  {
    var d := Dot(dir, to);
    assert Dot(across, to) == d * dir.x by {
      assert dir.y * dir.y == dir.x * dir.x;
      assert Dot(across, to) == dir.x * dir.x * to.x + dir.y * dir.x * to.y;
    }
    hide Dot, Square;
    if dir.x > 0.0 {
      ProductSign(d, dir.x);
      ProductSign(-d, dir.x);
      Turned(d, dir.x, -d);
    } else {
      ProductSign(d, -dir.x);
      ProductSign(-d, -dir.x);
      Turned(d, -dir.x, -d);
      Flipped(d, dir.x);
    }
  }

  function Combined(a: real, u: Point, c: real, w: Point): Point { Point(a * u.x + c * w.x, a * u.y + c * w.y) }

  lemma DotCombined(n: Point, a: real, u: Point, c: real, w: Point)
    ensures Dot(n, Combined(a, u, c, w)) == a * Dot(n, u) + c * Dot(n, w)
  {
  }

  /** A point ahead of the boid that is on the wrong side of the line. */
  lemma Confused(ar: Arithmetic, b: Boid) returns (p: Point)
    requires Exact(ar) && b.oldDir.x != 0.0 && b.oldDir.y != 0.0 && Square(b.oldDir.x) != Square(b.oldDir.y)
    ensures Ahead(b, p) && !InFront(ar, b, p)
  {
    hide Exact, InFront, Square, Dot, Combined;
    var dir, side, n := b.oldDir, Point(-b.oldDir.y, b.oldDir.x), Across(b);
    var q, a := Dot(n, side), Dot(n, dir);
    var beside := if dir.x > 0.0 then -q * (a + 1.0) else -q * (a - 1.0);
    SideLeans(dir, side, n);
    SquareSign(q);
    Beside(q, a);
    ProductSign(Dot(dir, dir), Square(q));
    var to := Combined(Square(q), dir, beside, side);
    p := Point(b.oldPos.x + to.x, b.oldPos.y + to.y);
    assert From(b, p) == to;
    DotCombined(n, Square(q), dir, beside, side);
    DotCombined(dir, Square(q), dir, beside, side);
    InFrontExactly(ar, b, p);
  }

  lemma Beside(q: real, a: real)
    ensures Square(q) * a + -q * (a + 1.0) * q == -Square(q)
    ensures Square(q) * a + -q * (a - 1.0) * q == Square(q)
  {
  }

  lemma SideLeans(dir: Point, side: Point, n: Point)
    requires side == Point(-dir.y, dir.x) && n == Point(dir.y * dir.y, dir.y * dir.x)
    requires dir.x != 0.0 && dir.y != 0.0 && Square(dir.x) != Square(dir.y)
    ensures Dot(n, side) != 0.0 && Dot(dir, side) == 0.0 && Dot(dir, dir) > 0.0
  {
    LeansBy(dir, side, n);
    assert Dot(dir, dir) == Square(dir.x) + Square(dir.y);
    assert Dot(dir, side) == 0.0;
    hide Dot, Square;
    SquareSign(dir.x);
    SquareSign(dir.y);
    var lean := Square(dir.x) - Square(dir.y);
    if Dot(n, side) == 0.0 {
      NoFactor(lean, dir.y);
    }
  }

  lemma LeansBy(dir: Point, side: Point, n: Point)
    requires side == Point(-dir.y, dir.x) && n == Point(dir.y * dir.y, dir.y * dir.x)
    ensures Dot(n, side) == (Square(dir.x) - Square(dir.y)) * dir.y
  {
  }
}
