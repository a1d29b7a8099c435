/**
 boids2d's flight step: positions and directions are saved, then every boid is steered and moved in place, one after
 the other. Square root and division are parameters, so nothing here depends on how they round.
 */
module Flight {
  import opened Neighbors
  import opened Samples
  import opened RealSums

  datatype Arithmetic = Arithmetic(root: real -> real, quotient: (real, real) -> real)

  datatype Boid = Boid(oldPos: Point, newPos: Point, oldDir: Point, newDir: Point, speed: real, slots: seq<Slot>)

  datatype Rect = Rect(left: real, right: real, top: real, bottom: real)

  datatype Settings = Settings(
    numNeighbors: nat, fly: Rect, minSpeed: real, maxSpeed: real, centerWeight: real, attractWeight: real,
      matchWeight: real,
    avoidWeight: real, wallsWeight: real, edgeDist: real, speedupFactor: real, inertiaFactor: real, accelFactor: real,
    prefDist: real, prefDistSqr: real, attractPt: Point)

  /** Every boid has its places for neighbours, and they name boids of the flock. */
  predicate ValidBoid(b: Boid, s: Settings, n: nat) {
    s.numNeighbors <= |b.slots| && forall j :: 0 <= j < |b.slots| ==> 0 <= b.slots[j].neighbor < n
  }

  predicate ValidFlock(flock: seq<Boid>, s: Settings) {
    forall i :: 0 <= i < |flock| ==> ValidBoid(flock[i], s, |flock|)
  }

  // ---- The helpers ----

  function Length(ar: Arithmetic, v: Point): real {
    ar.root(Square(v.x) + Square(v.y))
  }

  function Normalized(ar: Arithmetic, v: Point): Point {
    var length := Length(ar, v);
    if length != 0.0 then Point(ar.quotient(v.x, length), ar.quotient(v.y, length)) else v
  }

  function Seek(ar: Arithmetic, b: Boid, p: Point): Point {
    Normalized(ar, Point(p.x - b.oldPos.x, p.y - b.oldPos.y))
  }

  function Abs(x: real): real { if x < 0.0 then -x else x }

  function AvoidWalls(s: Settings, b: Boid): Point {
    var test := Point(b.oldPos.x + b.oldDir.x * b.speed * s.edgeDist, b.oldPos.y + b.oldDir.y * b.speed * s.edgeDist);
    Point(
      if test.x < s.fly.left then Abs(b.oldDir.x) else if test.x > s.fly.right then -Abs(b.oldDir.x) else 0.0,
      if test.y < s.fly.top then Abs(b.oldDir.y) else if test.y > s.fly.bottom then -Abs(b.oldDir.y) else 0.0)
  }

  function InFront(ar: Arithmetic, b: Boid, p: Point): bool {
    if b.oldDir.x != 0.0 then
      var grad := ar.quotient(-b.oldDir.y, b.oldDir.x);
      var intercept := b.oldPos.y - grad * b.oldPos.x;
      if p.x >= ar.quotient(p.y - intercept, grad) then b.oldDir.x > 0.0 else b.oldDir.x < 0.0
    else if b.oldDir.y > 0.0 then p.y > b.oldPos.y
    else p.y < b.oldPos.y
  }

  // ---- Matching and avoiding neighbours ----

  /** What the neighbours add up to: directions, pushes, how many are close, and the speed. */
  datatype Influence = Influence(matching: Point, total: Point, close: nat, speed: real)

  /** A sum of pushes with one more, against the distance h. */
  function Pushed(total: real, h: real, q: real): real { total - h - h * q }

  /** The influence of one neighbour. */
  function Influenced(ar: Arithmetic, s: Settings, b: Boid, pos: Point, dir: Point, distSqr: real,
      f: Influence): Influence {
    var near := distSqr < s.prefDistSqr;
    var accel := s.accelFactor / 100.0;
    var root := ar.root(distSqr);
    var dist := if root == 0.0 then 0.0000001 else root;
    var h, v := pos.x - b.oldPos.x, pos.y - b.oldPos.y;
    Influence(
      Point(f.matching.x + dir.x, f.matching.y + dir.y),
      if near then Point(Pushed(f.total.x, h, ar.quotient(s.prefDist, dist)),
        Pushed(f.total.y, v, ar.quotient(s.prefDist, dist)))
      else f.total,
      if near then f.close + 1 else f.close,
      if InFront(ar, b, pos) == near then ar.quotient(f.speed, accel) else f.speed * accel)
  }

  /** The influence of the neighbours in the first n places. */
  function Influences(ar: Arithmetic, s: Settings, pos: seq<Point>, dir: seq<Point>, b: Boid, n: nat): Influence
    requires n <= |b.slots| && |pos| == |dir| && forall j :: 0 <= j < n ==> 0 <= b.slots[j].neighbor < |pos|
  {
    if n == 0 then Influence(Point(0.0, 0.0), Point(0.0, 0.0), 0, b.speed)
    else
      var slot := b.slots[n - 1];
      Influenced(ar, s, b, pos[slot.neighbor], dir[slot.neighbor], slot.dist, Influences(ar, s, pos, dir, b, n - 1))
  }

  /** The places among the first n that are nearer than preferred. */
  function NearPlaces(s: Settings, b: Boid, n: nat): set<nat>
    requires n <= |b.slots|
  {
    set j: nat | 0 <= j < n && b.slots[j].dist < s.prefDistSqr
  }

  /** How a neighbour at pos pushes: away, and the more so the closer it is. */
  function Push(ar: Arithmetic, s: Settings, b: Boid, pos: Point, distSqr: real): Point {
    var root := ar.root(distSqr);
    var q := ar.quotient(s.prefDist, if root == 0.0 then 0.0000001 else root);
    Point(Repelled(b.oldPos.x - pos.x, q), Repelled(b.oldPos.y - pos.y, q))
  }

  function Repelled(away: real, q: real): real { away * (1.0 + q) }

  /** The direction of the neighbour in each place, and its push if it is near. */
  ghost function DirectionsAt(dir: seq<Point>, b: Boid): int -> Point {
    j => if 0 <= j < |b.slots| && 0 <= b.slots[j].neighbor < |dir| then dir[b.slots[j].neighbor] else Point(0.0, 0.0)
  }

  ghost function PushesAt(ar: Arithmetic, s: Settings, pos: seq<Point>, b: Boid): int -> Point {
    j =>
      if 0 <= j < |b.slots| && 0 <= b.slots[j].neighbor < |pos| && b.slots[j].dist < s.prefDistSqr
      then Push(ar, s, b, pos[b.slots[j].neighbor], b.slots[j].dist) else Point(0.0, 0.0)
  }

  ghost predicate SumsTo(p: Point, at: int -> Point, n: nat) {
    p.x == Sum(j => at(j).x, 0, n) && p.y == Sum(j => at(j).y, 0, n)
  }

  lemma SumsNext(p: Point, q: Point, at: int -> Point, n: nat)
    requires SumsTo(p, at, n) && q.x == p.x + at(n).x && q.y == p.y + at(n).y
    ensures SumsTo(q, at, n + 1)
  {
    var f, g := j => at(j).x, j => at(j).y;
    assert Sum(f, 0, n + 1) == Sum(f, 0, n) + f(n) && Sum(g, 0, n + 1) == Sum(g, 0, n) + g(n);
  }

  /**
   What the neighbours add up to, whatever their order: directions are summed, near neighbours push away and are
   counted, and the others do not push.
   */
  lemma {:induction false} InfluencesSum(ar: Arithmetic, s: Settings, pos: seq<Point>, dir: seq<Point>, b: Boid, n: nat)
    requires n <= |b.slots| && |pos| == |dir| && forall j :: 0 <= j < n ==> 0 <= b.slots[j].neighbor < |pos|
    ensures var f := Influences(ar, s, pos, dir, b, n);
      && SumsTo(f.matching, DirectionsAt(dir, b), n)
      && SumsTo(f.total, PushesAt(ar, s, pos, b), n)
      && f.close == |NearPlaces(s, b, n)|
  {
    if n == 0 {
      assert NearPlaces(s, b, 0) == {};
    } else {
      InfluencesSum(ar, s, pos, dir, b, n - 1);
      InfluencesNext(ar, s, pos, dir, b, n - 1);
    }
  }

  /** One place more. */
  lemma InfluencesNext(ar: Arithmetic, s: Settings, pos: seq<Point>, dir: seq<Point>, b: Boid, n: nat)
    requires n < |b.slots| && |pos| == |dir| && forall j :: 0 <= j <= n ==> 0 <= b.slots[j].neighbor < |pos|
    requires var g := Influences(ar, s, pos, dir, b, n);
      && SumsTo(g.matching, DirectionsAt(dir, b), n)
      && SumsTo(g.total, PushesAt(ar, s, pos, b), n)
      && g.close == |NearPlaces(s, b, n)|
    ensures var f := Influences(ar, s, pos, dir, b, n + 1);
      && SumsTo(f.matching, DirectionsAt(dir, b), n + 1)
      && SumsTo(f.total, PushesAt(ar, s, pos, b), n + 1)
      && f.close == |NearPlaces(s, b, n + 1)|
  {
    var g, f := Influences(ar, s, pos, dir, b, n), Influences(ar, s, pos, dir, b, n + 1);
    InfluencesParts(ar, s, pos, dir, b, n);
    hide *;
    SumsNext(g.matching, f.matching, DirectionsAt(dir, b), n);
    SumsNext(g.total, f.total, PushesAt(ar, s, pos, b), n);
  }

  lemma InfluencesParts(ar: Arithmetic, s: Settings, pos: seq<Point>, dir: seq<Point>, b: Boid, n: nat)
    requires n < |b.slots| && |pos| == |dir| && forall j :: 0 <= j <= n ==> 0 <= b.slots[j].neighbor < |pos|
    ensures var g, f := Influences(ar, s, pos, dir, b, n), Influences(ar, s, pos, dir, b, n + 1);
      var d, push := DirectionsAt(dir, b)(n), PushesAt(ar, s, pos, b)(n);
      && f.matching.x == g.matching.x + d.x && f.matching.y == g.matching.y + d.y
      && f.total.x == g.total.x + push.x && f.total.y == g.total.y + push.y
      && f.close - g.close == |NearPlaces(s, b, n + 1)| - |NearPlaces(s, b, n)|
  {
    var slot := b.slots[n];
    InfluencedParts(ar, s, b, pos[slot.neighbor], dir[slot.neighbor], slot.dist, Influences(ar, s, pos, dir, b, n));
    hide Influenced, Push;
    assert NearPlaces(s, b, n + 1) == NearPlaces(s, b, n) + (if slot.dist < s.prefDistSqr then {n} else {});
  }

  lemma InfluencedParts(ar: Arithmetic, s: Settings, b: Boid, pos: Point, dir: Point, distSqr: real, f: Influence)
    ensures var g, push := Influenced(ar, s, b, pos, dir, distSqr, f), Push(ar, s, b, pos, distSqr);
      && g.matching == Point(f.matching.x + dir.x, f.matching.y + dir.y)
      && g.total == (if distSqr < s.prefDistSqr then Point(f.total.x + push.x, f.total.y + push.y) else f.total)
      && g.close == f.close + (if distSqr < s.prefDistSqr then 1 else 0)
  {
    var root := ar.root(distSqr);
    var q := ar.quotient(s.prefDist, if root == 0.0 then 0.0000001 else root);
    var h, v := pos.x - b.oldPos.x, pos.y - b.oldPos.y;
    PushRepels(f.total.x, h, q, b.oldPos.x - pos.x);
    PushRepels(f.total.y, v, q, b.oldPos.y - pos.y);
    hide InFront, Repelled, Pushed;
  }

  lemma PushRepels(total: real, h: real, q: real, away: real)
    requires away == -h
    ensures Pushed(total, h, q) == total + Repelled(away, q)
  {
  }

  /** The places among the first n that divide the speed: near and in front, or neither. The others multiply it. */
  function DividingPlaces(ar: Arithmetic, s: Settings, pos: seq<Point>, b: Boid, n: nat): (r: set<nat>)
    requires n <= |b.slots| && forall j :: 0 <= j < n ==> 0 <= b.slots[j].neighbor < |pos|
    ensures forall j :: j in r ==> j < n
  {
    set j: nat | 0 <= j < n && InFront(ar, b, pos[b.slots[j].neighbor]) == (b.slots[j].dist < s.prefDistSqr)
  }

  ghost predicate DividesExactly(ar: Arithmetic, rate: real) {
    forall x :: ar.quotient(x, rate) * rate == x
  }

  /** One scaling of the speed g, down or up. */
  predicate Stepped(f: real, g: real, rate: real, down: bool) {
    if down then f * rate == g else f == g * rate
  }

  /**
   With exact division, the speed is scaled by the rate as often as there are multiplying places less dividing ones.
   */
  lemma {:induction false} InfluencesSpeed(ar: Arithmetic, s: Settings, pos: seq<Point>, dir: seq<Point>, b: Boid,
      n: nat)
    requires n <= |b.slots| && |pos| == |dir| && forall j :: 0 <= j < n ==> 0 <= b.slots[j].neighbor < |pos|
    requires DividesExactly(ar, s.accelFactor / 100.0)
    ensures var rate, d := s.accelFactor / 100.0, |DividingPlaces(ar, s, pos, b, n)|;
      d <= n && Scaled(b.speed, Influences(ar, s, pos, dir, b, n).speed, rate, d, n - d)
  {
    if n == 0 {
      assert DividingPlaces(ar, s, pos, b, 0) == {};
    } else {
      hide *;
      InfluencesSpeed(ar, s, pos, dir, b, n - 1);
      SpeedNext(ar, s, pos, dir, b, n - 1);
      DividingNext(ar, s, pos, b, n - 1);
      SpeedStep(b.speed, Influences(ar, s, pos, dir, b, n).speed, Influences(ar, s, pos, dir, b, n - 1).speed,
        s.accelFactor / 100.0,
        |DividingPlaces(ar, s, pos, b, n - 1)|, n - 1 - |DividingPlaces(ar, s, pos, b, n - 1)|,
        n - 1 in DividingPlaces(ar, s, pos, b, n));
    }
  }

  lemma DividingNext(ar: Arithmetic, s: Settings, pos: seq<Point>, b: Boid, n: nat)
    requires n < |b.slots| && forall j :: 0 <= j <= n ==> 0 <= b.slots[j].neighbor < |pos|
    ensures |DividingPlaces(ar, s, pos, b, n + 1)|
         == |DividingPlaces(ar, s, pos, b, n)| + (if n in DividingPlaces(ar, s, pos, b, n + 1) then 1 else 0)
  {
    hide InFront;
    var before, after := DividingPlaces(ar, s, pos, b, n), DividingPlaces(ar, s, pos, b, n + 1);
    assert after == before + (if n in after then {n} else {});
  }

  lemma SpeedNext(ar: Arithmetic, s: Settings, pos: seq<Point>, dir: seq<Point>, b: Boid, n: nat)
    requires n < |b.slots| && |pos| == |dir| && forall j :: 0 <= j <= n ==> 0 <= b.slots[j].neighbor < |pos|
    requires DividesExactly(ar, s.accelFactor / 100.0)
    ensures Stepped(Influences(ar, s, pos, dir, b, n + 1).speed, Influences(ar, s, pos, dir, b, n).speed,
      s.accelFactor / 100.0,
                    n in DividingPlaces(ar, s, pos, b, n + 1))
  {
    hide InFront;
    var rate, g := s.accelFactor / 100.0, Influences(ar, s, pos, dir, b, n).speed;
    assert ar.quotient(g, rate) * rate == g;
  }

  /** f is start scaled by the rate m times up and d times down. */
  predicate Scaled(start: real, f: real, rate: real, d: nat, m: nat) {
    f * Raised(rate, d) == start * Raised(rate, m)
  }

  lemma SpeedStep(start: real, f: real, g: real, rate: real, d: nat, m: nat, divides: bool)
    requires Scaled(start, g, rate, d, m)
    requires Stepped(f, g, rate, divides)
    ensures if divides then Scaled(start, f, rate, d + 1, m) else Scaled(start, f, rate, d, m + 1)
  {
    var x, y := Raised(rate, d), Raised(rate, m);
    if divides {
      assert f * (rate * x) == f * rate * x;
    } else {
      assert g * rate * x == g * x * rate;
      assert start * (rate * y) == start * y * rate;
    }
  }

  function Matching(ar: Arithmetic, f: Influence): Point {
    if f.close > 0 then Normalized(ar, f.matching) else f.matching
  }

  function Avoiding(ar: Arithmetic, f: Influence): Point {
    if f.close > 0 then Point(ar.quotient(f.total.x, f.close as real), ar.quotient(f.total.y, f.close as real))
      else Point(0.0, 0.0)
  }

  function Limited(s: Settings, speed: real): real {
    if s.minSpeed <= speed <= s.maxSpeed then speed else if speed > s.maxSpeed then s.maxSpeed else s.minSpeed
  }

  /** One component of the new direction, before its length is brought to one. */
  function Resultant(ar: Arithmetic, s: Settings, dir: real, center: real, attract: real, matching: real, avoid: real,
      walls: real): real {
    s.inertiaFactor * dir
      + ar.quotient(s.centerWeight * center + s.attractWeight * attract + s.matchWeight * matching
                      + s.avoidWeight * avoid + s.wallsWeight * walls, s.inertiaFactor)
  }

  function Moved(s: Settings, p: Point, dir: Point, speed: real): Point {
    Point(p.x + dir.x * speed * (s.speedupFactor / 100.0), p.y + dir.y * speed * (s.speedupFactor / 100.0))
  }

  /** The places after the search, when neighbours count at all. */
  function Searched(s: Settings, pos: seq<Point>, i: nat, b: Boid): (r: Boid)
    requires i < |pos| && ValidBoid(b, s, |pos|)
    ensures ValidBoid(r, s, |pos|) && r.slots[s.numNeighbors..] == b.slots[s.numNeighbors..]
    ensures r == b.(slots := r.slots) && |r.slots| == |b.slots|
  {
    if s.numNeighbors == 0 then b
    else
      ScannedInFlock(pos, i, |pos|, b.slots[..s.numNeighbors]);
      b.(slots := Scanned(pos, i, |pos|, b.slots[..s.numNeighbors]) + b.slots[s.numNeighbors..])
  }

  lemma {:induction false} ScannedInFlock(pos: seq<Point>, me: nat, i: nat, s: seq<Slot>)
    requires me < |pos| && i <= |pos| && |s| > 0 && forall j :: 0 <= j < |s| ==> 0 <= s[j].neighbor < |pos|
    ensures forall j :: 0 <= j < |s| ==> 0 <= Scanned(pos, me, i, s)[j].neighbor < |pos|
  {
    if i > 0 {
      ScannedInFlock(pos, me, i - 1, s);
      var t := Scanned(pos, me, i - 1, s);
      var x := Candidate(pos, me, i - 1);
      if i - 1 != me && x.dist < t[|t| - 1].dist {
        var p := InsertAt(t, x);
      }
    }
  }

  /**
   What draws a boid: the flock's centre, the point of attraction, its neighbours' directions, their pushes, the
   walls.
   */
  datatype Forces = Forces(center: Point, attract: Point, matching: Point, avoid: Point, walls: Point)

  function ForcesOn(ar: Arithmetic, s: Settings, center: Point, b: Boid, f: Influence): Forces {
    Forces(Seek(ar, b, center), Seek(ar, b, s.attractPt),
      if s.numNeighbors > 0 then Matching(ar, f) else Point(0.0, 0.0),
      if s.numNeighbors > 0 then Avoiding(ar, f) else Point(0.0, 0.0),
      AvoidWalls(s, b))
  }

  /** The new direction before its length is brought to one. */
  function Wish(ar: Arithmetic, s: Settings, dir: Point, f: Forces): Point {
    Point(Resultant(ar, s, dir.x, f.center.x, f.attract.x, f.matching.x, f.avoid.x, f.walls.x),
      Resultant(ar, s, dir.y, f.center.y, f.attract.y, f.matching.y, f.avoid.y, f.walls.y))
  }

  /** Boid i steered and moved, from the saved positions and directions of the flock and its own state. */
  function Steered(ar: Arithmetic, s: Settings, center: Point, pos: seq<Point>, dir: seq<Point>, i: nat,
      was: Boid): (r: Boid)
    requires i < |pos| == |dir| && ValidBoid(was, s, |pos|)
    ensures ValidBoid(r, s, |pos|) && r.oldPos == was.oldPos && r.oldDir == was.oldDir
  {
    var b := Searched(s, pos, i, was);
    var f := Influences(ar, s, pos, dir, b, s.numNeighbors);
    var d := Normalized(ar, Wish(ar, s, b.oldDir, ForcesOn(ar, s, center, b, f)));
    var speed := Limited(s, if s.numNeighbors > 0 then f.speed else 0.0);
    b.(newDir := d, speed := speed, newPos := Moved(s, b.newPos, d, speed))
  }

  // ---- The whole flock ----

  function Saved(b: Boid): Boid { b.(oldPos := b.newPos, oldDir := b.newDir) }

  function Positions(flock: seq<Boid>): (p: seq<Point>)
    ensures |p| == |flock| && forall i :: 0 <= i < |flock| ==> p[i] == flock[i].oldPos
  {
    seq(|flock|, i requires 0 <= i < |flock| => flock[i].oldPos)
  }

  function Directions(flock: seq<Boid>): (d: seq<Point>)
    ensures |d| == |flock| && forall i :: 0 <= i < |flock| ==> d[i] == flock[i].oldDir
  {
    seq(|flock|, i requires 0 <= i < |flock| => flock[i].oldDir)
  }

  function SavedFlock(flock: seq<Boid>): (r: seq<Boid>)
    ensures |r| == |flock| && forall i :: 0 <= i < |flock| ==> r[i] == Saved(flock[i])
  {
    seq(|flock|, i requires 0 <= i < |flock| => Saved(flock[i]))
  }

  /** The sums of the positions that were saved in the step before. */
  function Totals(flock: seq<Boid>, n: nat): Point
    requires n <= |flock|
  {
    if n == 0 then Point(0.0, 0.0)
    else
      var t := Totals(flock, n - 1);
      Point(t.x + flock[n - 1].oldPos.x, t.y + flock[n - 1].oldPos.y)
  }

  function Center(ar: Arithmetic, flock: seq<Boid>): Point {
    var t := Totals(flock, |flock|);
    Point(ar.quotient(t.x, |flock| as real), ar.quotient(t.y, |flock| as real))
  }

  /** Boid i of a flock, steered by the rest of it as it stands. */
  function SteeredIn(ar: Arithmetic, s: Settings, center: Point, flock: seq<Boid>, i: nat): (r: Boid)
    requires i < |flock| && ValidFlock(flock, s)
    ensures ValidBoid(r, s, |flock|) && r.oldPos == flock[i].oldPos && r.oldDir == flock[i].oldDir
  {
    Steered(ar, s, center, Positions(flock), Directions(flock), i, flock[i])
  }

  /** All boids at once, from the saved flock. */
  function Simultaneous(ar: Arithmetic, s: Settings, flock: seq<Boid>): (r: seq<Boid>)
    requires ValidFlock(flock, s)
    ensures |r| == |flock| && ValidFlock(r, s)
  {
    var saved := SavedFlock(flock);
    seq(|flock|, i requires 0 <= i < |flock| => SteeredIn(ar, s, Center(ar, flock), saved, i))
  }

  /** Boids steered in place, in the order given. */
  function InOrder(ar: Arithmetic, s: Settings, center: Point, flock: seq<Boid>, order: seq<nat>): (r: seq<Boid>)
    requires ValidFlock(flock, s) && forall k :: 0 <= k < |order| ==> order[k] < |flock|
    ensures |r| == |flock| && ValidFlock(r, s)
    decreases |order|
  {
    if order == [] then flock
    else InOrder(ar, s, center, flock[order[0] := SteeredIn(ar, s, center, flock, order[0])], order[1..])
  }

  /** The flock as others see it is the same. */
  predicate SameView(a: seq<Boid>, b: seq<Boid>) {
    |a| == |b| && forall i :: 0 <= i < |a| ==> a[i].oldPos == b[i].oldPos && a[i].oldDir == b[i].oldDir
  }

  lemma SteeredInSameView(ar: Arithmetic, s: Settings, center: Point, a: seq<Boid>, b: seq<Boid>, i: nat)
    requires SameView(a, b) && ValidFlock(a, s) && ValidFlock(b, s) && i < |a| && a[i] == b[i]
    ensures SteeredIn(ar, s, center, a, i) == SteeredIn(ar, s, center, b, i)
  {
    assert Positions(a) == Positions(b) && Directions(a) == Directions(b);
  }

  predicate Distinct(order: seq<nat>) {
    forall j, k :: 0 <= j < k < |order| ==> order[j] != order[k]
  }

  /**
   Steering in place, in any order without repetition, gives every boid in it what it would get from the untouched
   flock.
   */
  lemma {:induction false} InOrderIsSimultaneous(ar: Arithmetic, s: Settings, center: Point, flock: seq<Boid>,
      order: seq<nat>)
    requires ValidFlock(flock, s) && (forall k :: 0 <= k < |order| ==> order[k] < |flock|) && Distinct(order)
    ensures var r := InOrder(ar, s, center, flock, order);
      forall i :: 0 <= i < |flock| ==> r[i] == if i in order then SteeredIn(ar, s, center, flock, i) else flock[i]
    decreases |order|
  {
    hide SteeredIn, Positions, Directions;
    if order != [] {
      var first := order[0];
      var next := flock[first := SteeredIn(ar, s, center, flock, first)];
      InOrderIsSimultaneous(ar, s, center, next, order[1..]);
      assert SameView(flock, next);
      assert order == [first] + order[1..];
      forall i | 0 <= i < |flock| && i != first
        ensures SteeredIn(ar, s, center, next, i) == SteeredIn(ar, s, center, flock, i)
      {
        SteeredInSameView(ar, s, center, next, flock, i);
      }
    }
  }

  /** Any order that takes every boid once gives the simultaneous step. */
  lemma OrderIrrelevant(ar: Arithmetic, s: Settings, flock: seq<Boid>, order: seq<nat>)
    requires ValidFlock(flock, s) && Distinct(order)
    requires forall i :: i in order <==> 0 <= i < |flock|
    ensures forall k :: 0 <= k < |order| ==> order[k] < |flock|
    ensures ValidFlock(SavedFlock(flock), s)
    ensures InOrder(ar, s, Center(ar, flock), SavedFlock(flock), order) == Simultaneous(ar, s, flock)
  {
    hide Steered, Center;
    assert forall k :: 0 <= k < |order| ==> order[k] in order;
    InOrderIsSimultaneous(ar, s, Center(ar, flock), SavedFlock(flock), order);
  }

  /** In a step, every boid finds its nearest neighbours by the saved positions. */
  lemma StepFindsNearest(ar: Arithmetic, s: Settings, flock: seq<Boid>, i: nat) returns (m: nat)
    requires ValidFlock(flock, s) && i < |flock| && s.numNeighbors > 0
    ensures var r := Simultaneous(ar, s, flock)[i];
      Nearest(Positions(SavedFlock(flock)), i, |flock|, r.slots[..s.numNeighbors], m, flock[i].slots[..s.numNeighbors])
  {
    hide Scanned, Influences, Nearest, Normalized, Moved, Resultant;
    var pos, was := Positions(SavedFlock(flock)), flock[i].slots[..s.numNeighbors];
    m := ScannedNearest(pos, i, |flock|, was);
    assert Simultaneous(ar, s, flock)[i].slots == Searched(s, pos, i, Saved(flock[i])).slots;
    assert Searched(s, pos, i, Saved(flock[i])).slots[..s.numNeighbors] == Scanned(pos, i, |flock|, was);
  }

  /** Sums of the positions where the boids are. */
  function PlaceTotals(flock: seq<Boid>, n: nat): Point
    requires n <= |flock|
  {
    if n == 0 then Point(0.0, 0.0)
    else
      var t := PlaceTotals(flock, n - 1);
      Point(t.x + flock[n - 1].newPos.x, t.y + flock[n - 1].newPos.y)
  }

  /** The centre that a step steers to is the one of the step before: where the boids were before they last moved. */
  lemma {:induction false} CenterLags(ar: Arithmetic, s: Settings, flock: seq<Boid>, n: nat)
    requires ValidFlock(flock, s) && n <= |flock|
    ensures Totals(Simultaneous(ar, s, flock), n) == PlaceTotals(flock, n)
  {
    hide Influences, Normalized, Searched;
    if n > 0 {
      CenterLags(ar, s, flock, n - 1);
      assert Simultaneous(ar, s, flock)[n - 1].oldPos == flock[n - 1].newPos;
    }
  }

  // ---- The step as the code runs it ----

  method FindFlockCenter(ar: Arithmetic, flock: array<Boid>) returns (center: Point)
    ensures center == Center(ar, flock[..])
  {
    var h, v := 0.0, 0.0;
    for i := 0 to flock.Length
      invariant Point(h, v) == Totals(flock[..], i)
    {
      h := h + flock[i].oldPos.x;
      v := v + flock[i].oldPos.y;
    }
    center := Point(ar.quotient(h, flock.Length as real), ar.quotient(v, flock.Length as real));
  }

  /** Search, then add up the neighbours' influences place by place. */
  method MatchAndAvoid(ar: Arithmetic, s: Settings, flock: array<Boid>, i: nat, outside: real)
    returns (matching: Point, avoiding: Point, speed: real)
    requires i < flock.Length && s.numNeighbors > 0 && ValidFlock(flock[..], s)
    modifies flock
    ensures flock[..] == old(flock[..])[i := Searched(s, Positions(old(flock[..])), i, old(flock[i]))]
    ensures var f := Influences(ar, s, Positions(flock[..]), Directions(flock[..]), flock[i], s.numNeighbors);
      matching == Matching(ar, f) && avoiding == Avoiding(ar, f) && speed == f.speed
  {
    hide Influenced, Scanned, Normalized, DistSqr;
    ghost var was := flock[..];
    var pos := OldPositions(flock);
    var found := FindNeighbors(pos, i, flock[i].slots[..s.numNeighbors], outside);
    flock[i] := flock[i].(slots := found + flock[i].slots[s.numNeighbors..]);
    var b := flock[i];
    assert b == Searched(s, pos, i, was[i]);
    ghost var now := flock[..];
    assert now == was[i := b];
    assert SameView(was, now);
    assert Positions(now) == pos;
    var f := Influence(Point(0.0, 0.0), Point(0.0, 0.0), 0, b.speed);
    for j := 0 to s.numNeighbors
      invariant flock[..] == now && f == Influences(ar, s, pos, Directions(now), b, j)
    {
      var slot := b.slots[j];
      var neighbor := flock[slot.neighbor];
      assert pos[slot.neighbor] == neighbor.oldPos && Directions(now)[slot.neighbor] == neighbor.oldDir;
      f := AddInfluence(ar, s, b, neighbor, slot.dist, f);
    }
    matching := Matching(ar, f);
    avoiding := Avoiding(ar, f);
    speed := f.speed;
  }

  /** One neighbour's influence, case by case as the code has it. */
  method AddInfluence(ar: Arithmetic, s: Settings, b: Boid, neighbor: Boid, distSqr: real,
      f: Influence) returns (g: Influence)
    ensures g == Influenced(ar, s, b, neighbor.oldPos, neighbor.oldDir, distSqr, f)
  {
    hide Pushed, InFront;
    var matching := Point(f.matching.x + neighbor.oldDir.x, f.matching.y + neighbor.oldDir.y);
    var total, close, speed := f.total, f.close, f.speed;
    if distSqr < s.prefDistSqr {
      var dist := ar.root(distSqr);
      var h, v := neighbor.oldPos.x - b.oldPos.x, neighbor.oldPos.y - b.oldPos.y;
      if dist == 0.0 {
        dist := 0.0000001;
      }
      total := Point(Pushed(total.x, h, ar.quotient(s.prefDist, dist)),
        Pushed(total.y, v, ar.quotient(s.prefDist, dist)));
      close := close + 1;
    }
    if InFront(ar, b, neighbor.oldPos) {
      if distSqr < s.prefDistSqr {
        speed := ar.quotient(speed, s.accelFactor / 100.0);
      } else {
        speed := speed * (s.accelFactor / 100.0);
      }
    } else {
      if distSqr < s.prefDistSqr {
        speed := speed * (s.accelFactor / 100.0);
      } else {
        speed := ar.quotient(speed, s.accelFactor / 100.0);
      }
    }
    g := Influence(matching, total, close, speed);
  }

  method OldPositions(flock: array<Boid>) returns (pos: seq<Point>)
    ensures pos == Positions(flock[..])
  {
    pos := [];
    for i := 0 to flock.Length
      invariant |pos| == i && forall k :: 0 <= k < i ==> pos[k] == flock[k].oldPos
    {
      pos := pos + [flock[i].oldPos];
    }
  }

  method Save(flock: array<Boid>)
    modifies flock
    ensures flock[..] == SavedFlock(old(flock[..]))
  {
    for i := 0 to flock.Length
      invariant forall k :: 0 <= k < i ==> flock[k] == Saved(old(flock[k]))
      invariant forall k :: i <= k < flock.Length ==> flock[k] == old(flock[k])
    {
      flock[i] := flock[i].(oldPos := flock[i].newPos, oldDir := flock[i].newDir);
    }
  }

  /** Steer and move one boid in place. */
  method Steer(ar: Arithmetic, s: Settings, center: Point, flock: array<Boid>, i: nat, outside: real)
    requires i < flock.Length && ValidFlock(flock[..], s)
    modifies flock
    ensures flock[..] == old(flock[..])[i := SteeredIn(ar, s, center, old(flock[..]), i)]
  {
    hide Influences, Scanned, Normalized, DistSqr, Resultant, AvoidWalls, Matching, Avoiding, Limited, Moved;
    ghost var was := flock[..];
    var m, v, avoidSpeed := Point(0.0, 0.0), Point(0.0, 0.0), 0.0;
    if s.numNeighbors > 0 {
      m, v, avoidSpeed := MatchAndAvoid(ar, s, flock, i, outside);
    }
    var b := flock[i];
    assert b == Searched(s, Positions(was), i, was[i]);
    assert flock[..] == was[i := b];
    assert Positions(flock[..]) == Positions(was) && Directions(flock[..]) == Directions(was);
    ghost var f := Influences(ar, s, Positions(was), Directions(was), b, s.numNeighbors);
    assert s.numNeighbors > 0 ==> m == Matching(ar, f) && v == Avoiding(ar, f) && avoidSpeed == f.speed;
    var c, a, w := Seek(ar, b, center), Seek(ar, b, s.attractPt), AvoidWalls(s, b);
    var d := Normalized(ar, Point(
      Resultant(ar, s, b.oldDir.x, c.x, a.x, m.x, v.x, w.x),
      Resultant(ar, s, b.oldDir.y, c.y, a.y, m.y, v.y, w.y)));
    var speed := Limited(s, avoidSpeed);
    b := b.(newDir := d, speed := speed);
    b := b.(newPos := Moved(s, b.newPos, d, speed));
    assert b == SteeredIn(ar, s, center, was, i);
    flock[i] := b;
    assert flock[..] == was[i := b];
  }

  /** The flight step as the code runs it, in place: it does to every boid what a simultaneous step would do. */
  method FlightStep(ar: Arithmetic, s: Settings, flock: array<Boid>, outside: real)
    requires ValidFlock(flock[..], s)
    modifies flock
    ensures flock[..] == Simultaneous(ar, s, old(flock[..])) && ValidFlock(flock[..], s)
  {
    hide Steered, Center, ValidBoid;
    ghost var was := flock[..];
    var center := FindFlockCenter(ar, flock);
    SavedValid(was, s);
    Save(flock);
    ghost var saved := flock[..];
    for i := 0 to flock.Length
      invariant ValidFlock(flock[..], s)
      invariant forall k :: 0 <= k < i ==> flock[k] == SteeredIn(ar, s, center, saved, k)
      invariant forall k :: i <= k < flock.Length ==> flock[k] == saved[k]
      invariant SameView(saved, flock[..])
    {
      ghost var before := flock[..];
      SteeredInSameView(ar, s, center, before, saved, i);
      Steer(ar, s, center, flock, i, outside);
    }
  }

  lemma SavedValid(flock: seq<Boid>, s: Settings)
    requires ValidFlock(flock, s)
    ensures ValidFlock(SavedFlock(flock), s)
  {
  }
}
