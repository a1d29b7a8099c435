/**
 Where disis_munger~ lets its grains start, and why they keep clear of the moving record head: how far behind the head
 every sample of a grain is read.
 */
module GrainClearance {
  import opened Samples

  const MIN_SPEED: real := 0.001

  /** The slowest speed is enforced. */
  function Speed(drawn: real): (s: real)
    ensures s >= MIN_SPEED && (drawn >= 0.001 ==> s == drawn) && (drawn < 0.001 ==> s == 0.001)
  {
    if drawn < MIN_SPEED then MIN_SPEED else drawn
  }

  function Least(a: real, b: real): real { if a <= b then a else b }
  function Most(a: real, b: real): real { if a >= b then a else b }

  /** The size rule as the code runs it. */
  method NewSize(drawn: real, speed: real, minsize: real, maxsize: real) returns (newsize: real)
    requires speed >= MIN_SPEED && maxsize > 0.0
    ensures newsize == Size(drawn, speed, minsize, maxsize)
    ensures SizeRule(newsize, drawn, speed, minsize, maxsize)
  {
    SizeFollowsRule(drawn, speed, minsize, maxsize);
    hide SizeRule;
    newsize := drawn;
    if newsize > maxsize {
      newsize := maxsize;
    }
    Quotients(newsize, speed, maxsize);
    Quotients(maxsize, speed, maxsize);
    if newsize * speed > maxsize {
      newsize := maxsize / speed;
    }
    if newsize < minsize {
      newsize := minsize;
    }
  }

  lemma Quotients(x: real, speed: real, maxsize: real)
    requires speed > 0.0
    ensures x * speed > maxsize <==> x > maxsize / speed
  {
    var q := maxsize / speed;
    assert q * speed == maxsize;
    Scaled(x, q, speed);
  }

  lemma Scaled(x: real, y: real, m: real)
    requires m > 0.0
    ensures x > y <==> x * m > y * m
  {
    var d := x - y;
    assert x * m - y * m == d * m;
    if d > 0.0 {
      assert d * m > 0.0;
    } else {
      assert d * m <= 0.0;
    }
  }

  /**
   No longer than the largest grain, nor played through more of the buffer than that, but at least the smallest grain.
   */
  function Size(drawn: real, speed: real, minsize: real, maxsize: real): real
    requires speed > 0.0
  {
    Most(Least(Least(drawn, maxsize), maxsize / speed), minsize)
  }

  /**
   What a size must be: the drawn one, if it is between the limits and its stretch as well; the smallest, if less was
   drawn; and otherwise the largest that keeps to both upper limits, or the smallest where that does not.
   */
  predicate SizeRule(size: real, drawn: real, speed: real, minsize: real, maxsize: real) {
    && (minsize <= drawn <= maxsize && drawn * speed <= maxsize ==> size == drawn)
    && (drawn <= minsize ==> size == minsize)
    && (minsize <= drawn && (drawn > maxsize || drawn * speed > maxsize) ==>
          if minsize <= maxsize && minsize * speed <= maxsize
          then size <= maxsize && size * speed <= maxsize && (size == maxsize || size * speed == maxsize)
          else size == minsize)
  }

  lemma SizeFollowsRule(drawn: real, speed: real, minsize: real, maxsize: real)
    requires speed > 0.0
    ensures SizeRule(Size(drawn, speed, minsize, maxsize), drawn, speed, minsize, maxsize)
  {
    var q := maxsize / speed;
    assert q * speed == maxsize;
    Quotients(drawn, speed, maxsize);
    Quotients(minsize, speed, maxsize);
    Quotients(maxsize, speed, maxsize);
  }

  /** The rule leaves one size. */
  lemma SizeRuleDecides(a: real, b: real, drawn: real, speed: real, minsize: real, maxsize: real)
    requires speed > 0.0 && SizeRule(a, drawn, speed, minsize, maxsize) && SizeRule(b, drawn, speed, minsize, maxsize)
    ensures a == b
  {
    Scaled(a, b, speed);
    Scaled(b, a, speed);
  }

  /** Who draws more gets no less. */
  lemma SizeMonotone(drawn: real, more: real, speed: real, minsize: real, maxsize: real)
    requires speed > 0.0 && drawn <= more
    ensures Size(drawn, speed, minsize, maxsize) <= Size(more, speed, minsize, maxsize)
  {
  }

  /** A grain that fits: neither its length nor the stretch it reads exceeds the largest size. */
  predicate Fits(size: real, speed: real, maxsize: real) {
    size <= maxsize && Times(size, speed) <= maxsize
  }

  /** Exactly when every draw gives a fitting grain: when the smallest one fits. */
  lemma AlwaysFits(speed: real, minsize: real, maxsize: real)
    requires speed > 0.0
    ensures (forall drawn :: Fits(Size(drawn, speed, minsize, maxsize), speed, maxsize)) <==>
      Fits(minsize, speed, maxsize)
  {
    var q := maxsize / speed;
    Quotients(minsize, speed, maxsize);
    assert Size(Least(minsize, Least(maxsize, q)), speed, minsize, maxsize) == minsize;
    forall drawn | Fits(minsize, speed, maxsize)
      ensures Fits(Size(drawn, speed, minsize, maxsize), speed, maxsize)
    {
      Quotients(Size(drawn, speed, minsize, maxsize), speed, maxsize);
    }
  }

  // ---- Start positions ----

  /** Speed, direction and length in samples of a grain. */
  datatype Grain = Grain(speed: real, forward: bool, size: int)

  function Times(a: real, b: real): real { a * b }

  /** How far behind the record head a grain starts: at random when position is -1, which r in [0,1] draws. */
  function Offset(recording: bool, position: real, third: real, g: Grain, r: real): real {
    var p := if position == -1.0 then r else position;
    if recording then
      if g.forward && g.speed > 1.0 then
        if position == -1.0 then third + Times(p, third) else Times(g.size as real, g.speed) + Times(p, third)
      else Times(p, third)
    else if g.forward then third + Times(p, third)
    else Times(p, third)
  }

  /**
   Where grains start: random starts are spread evenly over a third, fixed ones lie their share of a third back. A
   fast forward grain with a fixed position ends its own length behind the moving head, and one in a buffer that
   stands still, or a random fast one, starts a third back.
   */
  lemma StartsSpread(recording: bool, position: real, third: real, g: Grain, r: real)
    requires position == -1.0 || position >= 0.0
    ensures position == -1.0 ==>
      Offset(recording, position, third, g, r) == Offset(recording, position, third, g, 0.0) + r * third
    ensures position >= 0.0 ==>
      Offset(recording, position, third, g, r) == Offset(recording, 0.0, third, g, 0.0) + position * third
    ensures recording && g.forward && g.speed > 1.0 && position >= 0.0 ==>
      Offset(recording, position, third, g, r) + g.size as real * (1.0 - g.speed) == g.size as real + position * third
    ensures g.forward && (!recording || (g.speed > 1.0 && position == -1.0)) ==>
      Offset(recording, if position == -1.0 then -1.0 else 0.0, third, g, 0.0) == third
    ensures !g.forward || (recording && g.speed <= 1.0) ==>
      Offset(recording, if position == -1.0 then -1.0 else 0.0, third, g, 0.0) == 0.0
  {
  }

  /** How much further behind it is at each sample: the head moves on while recording, the grain by its speed. */
  function Rate(recording: bool, g: Grain): real {
    (if recording then 1.0 else 0.0) - (if g.forward then g.speed else -g.speed)
  }

  function Lag(offset: real, rate: real, j: int): real { offset + Times(j as real, rate) }

  /** Even an empty grain reads one sample. */
  function Reads(size: int): (n: nat)
    ensures n >= 1 && n >= size
  {
    if size < 1 then 1 else size
  }

  /** Every sample of the grain is read from what the buffer holds. */
  ghost predicate Clear(offset: real, rate: real, size: int, length: nat) {
    forall j :: 0 <= j < Reads(size) ==> 0.0 <= Lag(offset, rate, j) <= length as real
  }

  lemma TimesMonotone(i: int, j: int, rate: real)
    requires i <= j
    ensures rate >= 0.0 ==> Times(i as real, rate) <= Times(j as real, rate)
    ensures rate <= 0.0 ==> Times(i as real, rate) >= Times(j as real, rate)
  {
    var d := (j - i) as real;
    assert Times(j as real, rate) - Times(i as real, rate) == d * rate;
  }

  /** A grain is clear exactly when its first and its last sample are. */
  lemma ClearEnds(offset: real, rate: real, size: int, length: nat)
    ensures Clear(offset, rate, size, length) <==>
      0.0 <= offset <= length as real && 0.0 <= Lag(offset, rate, Reads(size) - 1) <= length as real
  {
    var last := Reads(size) - 1;
    assert Lag(offset, rate, 0) == offset;
    forall j | 0 <= j <= last
      ensures Least(offset, Lag(offset, rate, last)) <= Lag(offset, rate, j) <= Most(offset, Lag(offset, rate, last))
    {
      TimesMonotone(0, j, rate);
      TimesMonotone(j, last, rate);
    }
  }

  lemma Portion(p: real, third: real)
    requires 0.0 <= p <= 1.0 && third >= 0.0
    ensures 0.0 <= Times(p, third) <= third
  {
    NonNegativeProduct(p, third);
    NonNegativeProduct(1.0 - p, third);
  }

  /** The way of the grain, and its distance from the head, by the time of its last sample. */
  lemma LastRead(g: Grain, n: nat)
    requires g.speed > 0.0 && g.size >= 0 && n == Reads(g.size) - 1
    ensures var way := Times(n as real, g.speed);
      && 0.0 <= way <= Times(g.size as real, g.speed)
      && (g.size >= 1 ==> way == Times(g.size as real, g.speed) - g.speed)
      && (g.speed <= 1.0 ==> way <= n as real) && (g.speed >= 1.0 ==> way >= n as real)
  {
    TimesMonotone(0, n, g.speed);
    TimesMonotone(0, g.size, g.speed);
    if g.size >= 1 {
      assert (g.size - 1) as real * g.speed == g.size as real * g.speed - g.speed;
    }
    Ahead(n as real, g.speed);
  }

  /** Below unit speed a grain falls behind a moving head, above it the grain gains on it. */
  lemma Ahead(n: real, speed: real)
    requires n >= 0.0
    ensures speed <= 1.0 ==> Times(n, speed) <= n
    ensures speed >= 1.0 ==> Times(n, speed) >= n
  {
    var slow := 1.0 - speed;
    assert n * slow == n - n * speed;
    if speed <= 1.0 {
      NonNegativeProduct(n, slow);
    } else {
      NonNegativeProduct(n, -slow);
      assert n * -slow == -(n * slow);
    }
  }

  lemma RateTimes(recording: bool, g: Grain, x: real)
    ensures Times(x, Rate(recording, g)) == (if recording then x else 0.0) - (if g.forward then Times(x, g.speed)
      else -Times(x, g.speed))
  {
  }

  /**
   Every grain that fits keeps clear of the record head for its whole life: forwards or backwards, at any speed, with
   random or fixed position, recording or not.
   */
  lemma GrainsKeepClear(recording: bool, position: real, third: real, g: Grain, r: real, length: nat)
    requires g.speed > 0.0 && g.size >= 0 && g.size as real <= third && Times(g.size as real, g.speed) <= third
    requires position == -1.0 || 0.0 <= position <= 1.0
    requires 0.0 <= r <= 1.0 && 3.0 * third <= length as real
    ensures Clear(Offset(recording, position, third, g, r), Rate(recording, g), g.size, length)
  {
    var n := Reads(g.size) - 1;
    var p := if position == -1.0 then r else position;
    Portion(p, third);
    LastRead(g, n);
    RateTimes(recording, g, n as real);
    ClearEnds(Offset(recording, position, third, g, r), Rate(recording, g), g.size, length);
    hide Times, Rate, Clear;
  }

  // ---- Exactly when a grain keeps clear ----

  /** The start of a grain, with its random or fixed part of a third given in samples. */
  function StartAt(recording: bool, position: real, third: real, g: Grain, part: real): real {
    if recording then
      if g.forward && g.speed > 1.0 then
        if position == -1.0 then third + part else Times(g.size as real, g.speed) + part
      else part
    else if g.forward then third + part
    else part
  }

  /**
   The room that a grain needs, case by case. Starts lie up to part samples further back, where part is the furthest
   random start or the fixed one. A grain that moves away from the head must start and end within the buffer; one that
   gains on the head must start within the buffer and end behind the head.
   */
  predicate Room(recording: bool, position: real, third: real, g: Grain, part: real, length: nat) {
    var n := (Reads(g.size) - 1) as real;
    var way := Times(n, g.speed);
    if recording then
      if g.forward && g.speed > 1.0 then
        if position == -1.0 then third + part <= length as real && way - n <= third
        else Times(g.size as real, g.speed) + part <= length as real
      else if g.forward then part + (n - way) <= length as real
      else part + n + way <= length as real
    else if g.forward then
      third + part <= length as real && way <= (if position == -1.0 then third else third + part)
    else part + way <= length as real
  }

  /** A single start is clear exactly when both ends of the grain are within the buffer. */
  lemma ClearAt(recording: bool, position: real, third: real, g: Grain, r: real, length: nat)
    ensures var p := Times(if position == -1.0 then r else position, third);
      var start := StartAt(recording, position, third, g, p);
      var n := (Reads(g.size) - 1) as real;
      var end := start + (if recording then n else 0.0) - (if g.forward then Times(n, g.speed) else -Times(n, g.speed));
      Clear(Offset(recording, position, third, g, r), Rate(recording, g), g.size, length) <==>
        0.0 <= start <= length as real && 0.0 <= end <= length as real
  {
    var n := Reads(g.size) - 1;
    RateTimes(recording, g, n as real);
    ClearEnds(Offset(recording, position, third, g, r), Rate(recording, g), g.size, length);
    hide Times, Rate, Clear;
  }

  lemma PartsOrdered(r: real, top: real, third: real)
    requires 0.0 <= r <= top && third >= 0.0
    ensures 0.0 <= Times(r, third) <= Times(top, third) && Times(0.0, third) == 0.0
  {
    NonNegativeProduct(r, third);
    NonNegativeProduct(top - r, third);
    assert (top - r) * third == top * third - r * third;
  }

  /** What draws up to top put into the start: the largest random part, or the fixed one. */
  function FurthestPart(position: real, third: real, top: real): real {
    Times(if position == -1.0 then top else position, third)
  }

  /**
   A grain keeps clear for every random start up to top if and only if it has room: for every speed, size, direction
   and position, recording or not.
   */
  lemma ClearForEveryStart(recording: bool, position: real, third: real, g: Grain, top: real, length: nat)
    requires g.speed > 0.0 && g.size >= 0 && third >= 0.0 && top >= 0.0 && (position == -1.0 || position >= 0.0)
    ensures (forall r :: 0.0 <= r <= top ==> Clear(Offset(recording, position, third, g, r), Rate(recording, g),
      g.size, length))
      <==> Room(recording, position, third, g, FurthestPart(position, third, top), length)
  {
    var n := Reads(g.size) - 1;
    LastRead(g, n);
    PartsOrdered(0.0, top, third);
    if position != -1.0 {
      PartsOrdered(0.0, position, third);
    }
    ClearAt(recording, position, third, g, 0.0, length);
    ClearAt(recording, position, third, g, top, length);
    hide Times, Rate, Offset, Clear;
    if Room(recording, position, third, g, FurthestPart(position, third, top), length) {
      forall r | 0.0 <= r <= top
        ensures Clear(Offset(recording, position, third, g, r), Rate(recording, g), g.size, length)
      {
        ClearAt(recording, position, third, g, r, length);
        PartsOrdered(r, top, third);
      }
    }
  }

  /**
   A fast forward grain behind a moving head keeps clear for every draw exactly when what it gains on the head is at
   most a third.
   */
  lemma FastForwardClear(third: real, g: Grain, length: nat)
    requires g.forward && g.speed > 1.0 && g.size >= 0 && 0.0 <= third && 3.0 * third <= length as real
    ensures (forall r :: 0.0 <= r <= 1.0 ==> Clear(Offset(true, -1.0, third, g, r), Rate(true, g), g.size, length))
      <==> Times((Reads(g.size) - 1) as real, g.speed - 1.0) <= third
  {
    ClearForEveryStart(true, -1.0, third, g, 1.0, length);
    var n := (Reads(g.size) - 1) as real;
    assert Times(n, g.speed - 1.0) == Times(n, g.speed) - n;
  }

  // ---- Over all drawn sizes ----

  /** What the messages set; the third of the buffer that positions are measured in is the largest size. */
  datatype Settings = Settings(position: real, minsize: real, maxsize: real, voices: nat, rampLength: real) {
    /** What the setters keep: a position in [0,1], or -1 for a random one, and lengths of more than nothing. */
    predicate Valid() {
      (position == -1.0 || 0.0 <= position <= 1.0) && 0.0 < minsize && 1.0 <= maxsize && 0.0 < rampLength
    }
  }

  /** The longest grain that can be drawn at a speed. */
  function Longest(speed: real, minsize: real, maxsize: real): real
    requires speed > 0.0
  {
    Most(Least(maxsize, maxsize / speed), minsize)
  }

  lemma LongestIsDrawn(drawn: real, speed: real, minsize: real, maxsize: real)
    requires speed > 0.0
    ensures Size(drawn, speed, minsize, maxsize) <= Longest(speed, minsize, maxsize)
    ensures Size(Longest(speed, minsize, maxsize), speed, minsize, maxsize) == Longest(speed, minsize, maxsize)
  {
  }

  /** A shorter grain needs less room. */
  lemma RoomShorter(recording: bool, position: real, third: real, g: Grain, h: Grain, part: real, length: nat)
    requires g.speed == h.speed > 0.0 && g.forward == h.forward && 0 <= g.size <= h.size
    requires Room(recording, position, third, h, part, length)
    ensures Room(recording, position, third, g, part, length)
  {
    var n, m := Reads(g.size) - 1, Reads(h.size) - 1;
    TimesMonotone(n, m, g.speed);
    TimesMonotone(g.size, h.size, g.speed);
    Ahead((m - n) as real, g.speed);
    TimesDifference(n as real, m as real, g.speed);
    hide Times;
  }

  lemma TimesDifference(a: real, b: real, rate: real)
    ensures Times(b - a, rate) == Times(b, rate) - Times(a, rate)
  {
  }

  lemma TruncMonotone(x: real, y: real)
    requires 0.0 <= x <= y
    ensures 0 <= Trunc(x) <= Trunc(y)
  {
  }

  /** The grain of a drawn size and a drawn start is clear. */
  ghost predicate DrawClear(recording: bool, s: Settings, speed: real, forward: bool, length: nat, drawn: real, r: real)
    requires speed > 0.0
  {
    var g := Grain(speed, forward, Trunc(Size(drawn, speed, s.minsize, s.maxsize)));
    Clear(Offset(recording, s.position, s.maxsize, g, r), Rate(recording, g), g.size, length)
  }

  /** The exact condition on the settings: the longest grain that can be drawn has room. */
  predicate SettingHasRoom(recording: bool, s: Settings, speed: real, forward: bool, top: real, length: nat)
    requires speed > 0.0
  {
    Room(recording, s.position, s.maxsize, Grain(speed, forward, Trunc(Longest(speed, s.minsize, s.maxsize))),
         FurthestPart(s.position, s.maxsize, top), length)
  }

  /** Every drawn size and every drawn start keeps clear if and only if the longest grain has room. */
  lemma ClearForEveryDraw(recording: bool, s: Settings, speed: real, forward: bool, top: real, length: nat)
    requires speed > 0.0 && s.Valid() && top >= 0.0
    ensures (forall drawn, r :: 0.0 <= r <= top ==> DrawClear(recording, s, speed, forward, length, drawn, r))
      <==> SettingHasRoom(recording, s, speed, forward, top, length)
  {
    var longest := Longest(speed, s.minsize, s.maxsize);
    var h := Grain(speed, forward, Trunc(longest));
    var part := FurthestPart(s.position, s.maxsize, top);
    LongestIsDrawn(longest, speed, s.minsize, s.maxsize);
    TruncMonotone(longest, longest);
    ClearForEveryStart(recording, s.position, s.maxsize, h, top, length);
    hide Clear, Offset, Rate, Room, Size, Longest, FurthestPart;
    if SettingHasRoom(recording, s, speed, forward, top, length) {
      forall drawn, r | 0.0 <= r <= top
        ensures DrawClear(recording, s, speed, forward, length, drawn, r)
      {
        var size := Size(drawn, speed, s.minsize, s.maxsize);
        var g := Grain(speed, forward, Trunc(size));
        SizeAtLeast(drawn, speed, s.minsize, s.maxsize);
        LongestIsDrawn(drawn, speed, s.minsize, s.maxsize);
        TruncMonotone(size, longest);
        RoomShorter(recording, s.position, s.maxsize, g, h, part, length);
        ClearForEveryStart(recording, s.position, s.maxsize, g, top, length);
      }
    } else if forall drawn, r :: 0.0 <= r <= top ==> DrawClear(recording, s, speed, forward, length, drawn, r) {
      forall r | 0.0 <= r <= top
        ensures Clear(Offset(recording, s.position, s.maxsize, h, r), Rate(recording, h), h.size, length)
      {
        assert DrawClear(recording, s, speed, forward, length, longest, r);
      }
    }
  }

  /** When the smallest grain fits and three of the largest fill at most the buffer, there is room. */
  lemma FitHasRoom(recording: bool, s: Settings, speed: real, forward: bool, length: nat)
    requires speed > 0.0 && s.Valid() && Fits(s.minsize, speed, s.maxsize) && 3.0 * s.maxsize <= length as real
    ensures SettingHasRoom(recording, s, speed, forward, 1.0, length)
  {
    var longest := Longest(speed, s.minsize, s.maxsize);
    var g := Grain(speed, forward, Trunc(longest));
    AlwaysFits(speed, s.minsize, s.maxsize);
    LongestIsDrawn(longest, speed, s.minsize, s.maxsize);
    assert Fits(Size(longest, speed, s.minsize, s.maxsize), speed, s.maxsize);
    Shorter(g.size as real, longest, speed);
    hide Clear, Offset, Rate, Room, Size, Longest, FurthestPart;
    forall r | 0.0 <= r <= 1.0
      ensures Clear(Offset(recording, s.position, s.maxsize, g, r), Rate(recording, g), g.size, length)
    {
      GrainsKeepClear(recording, s.position, s.maxsize, g, r, length);
    }
    ClearForEveryStart(recording, s.position, s.maxsize, g, 1.0, length);
  }

  lemma Shorter(a: real, b: real, speed: real)
    requires a <= b && speed > 0.0
    ensures Times(a, speed) <= Times(b, speed)
  {
    NonNegativeProduct(b - a, speed);
    assert Times(b, speed) - Times(a, speed) == (b - a) * speed;
  }

  lemma SizeAtLeast(drawn: real, speed: real, minsize: real, maxsize: real)
    requires speed > 0.0
    ensures Size(drawn, speed, minsize, maxsize) >= minsize
  {
  }

  /**
   Fitting is enough, but not needed: at twice the speed, random starts in either direction have room for a grain that
   does not fit.
   */
  lemma ClearWithoutFitting(forward: bool)
    ensures !Fits(60.0, 2.0, 100.0) && SettingHasRoom(true, Settings(-1.0, 60.0, 100.0, 1, 256.0), 2.0, forward, 1.0,
      300)
  {
  }

  /** With the smallest buffer and the smallest grain, four times the speed runs a grain into the record head. */
  lemma SmallestGrainCollides()
    ensures var g := Grain(4.0, true, 64);
      && Size(64.0, 4.0, 64.0, 64.0) == 64.0
      && Lag(Offset(true, -1.0, 64.0, g, 0.0), Rate(true, g), 63) < 0.0
  {
  }
}
