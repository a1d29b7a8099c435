/**
 autotune~'s conversion between semitones and scale notes. A pitch in semitones is placed between the
 selected notes that enclose it; a pitch in scale notes counts selected notes, so that whole numbers are
 notes of the scale. Two tables of twelve entries carry the order of the selected notes.
 */
module ScaleConversion {
  import opened Samples
  import opened Division

  // ---- Note selections and the tables ----

  /** How many of the notes before i are selected; a note is selected unless it is marked negative. */
  function Count(notes: seq<int>, i: nat): nat
    requires i <= |notes|
  {
    if i == 0 then 0 else Count(notes, i - 1) + (if notes[i - 1] >= 0 then 1 else 0)
  }

  lemma {:induction false} CountMonotone(notes: seq<int>, i: nat, j: nat)
    requires i <= j <= |notes|
    ensures Count(notes, i) <= Count(notes, j) <= Count(notes, i) + (j - i)
    ensures i < j && notes[i] >= 0 ==> Count(notes, i) < Count(notes, j)
    decreases j - i
  {
    if i < j {
      CountMonotone(notes, i + 1, j);
    }
  }

  datatype Scale = Scale(notes: seq<int>, pitch2note: seq<int>, note2pitch: seq<int>, num: nat) {

    predicate Selected(j: int)
      requires |notes| == 12
    {
      notes[j % 12] >= 0
    }

    /** The tables list the selected notes in order, and undo each other. */
    ghost predicate Valid() {
      && |notes| == |pitch2note| == |note2pitch| == 12
      && num == Count(notes, 12) && 0 < num <= 12
      && (forall i :: 0 <= i < 12 ==> pitch2note[i] == if notes[i] >= 0 then Count(notes, i) else -1)
      && (forall i {:trigger note2pitch[Count(notes, i)]} ::
            0 <= i < 12 && notes[i] >= 0 ==> Count(notes, i) < 12 && note2pitch[Count(notes, i)] == i)
      && (forall r {:trigger note2pitch[r]} :: 0 <= r < num ==> 0 <= note2pitch[r] < 12 && notes[note2pitch[r]] >= 0)
      && (forall r {:trigger pitch2note[note2pitch[r]]} :: 0 <= r < num ==> pitch2note[note2pitch[r]] == r)
      && (forall r :: num <= r < 12 ==> note2pitch[r] == -1)
    }
  }

  /** The selection that is used: all notes when none is selected. */
  function Effective(notes: seq<int>): seq<int>
    requires |notes| == 12
  {
    if Count(notes, 12) == 0 then seq(12, i => 1) else notes
  }

  lemma {:induction false} CountAll(notes: seq<int>, i: nat)
    requires i <= |notes| && forall k :: 0 <= k < |notes| ==> notes[k] >= 0
    ensures Count(notes, i) == i
  {
    if i > 0 {
      CountAll(notes, i - 1);
    }
  }

  /** The tables after the first i notes were looked at. */
  ghost predicate Filled(notes: seq<int>, p2n: seq<int>, n2p: seq<int>, num: nat, i: nat)
    requires |notes| == |p2n| == |n2p| == 12 && i <= 12
  {
    && num == Count(notes, i) <= i
    && (forall k :: 0 <= k < i ==> p2n[k] == if notes[k] >= 0 then Count(notes, k) else -1)
    && (forall k :: 0 <= k < i && notes[k] >= 0 ==> Count(notes, k) < num && n2p[Count(notes, k)] == k)
    && (forall r :: 0 <= r < num ==> 0 <= n2p[r] < i && notes[n2p[r]] >= 0 && p2n[n2p[r]] == r)
  }

  lemma FilledNext(notes: seq<int>, p2n: seq<int>, n2p: seq<int>, num: nat, i: nat)
    requires |notes| == |p2n| == |n2p| == 12 && i < 12 && Filled(notes, p2n, n2p, num, i)
    ensures notes[i] >= 0 ==> num < 12 && Filled(notes, p2n[i := num], n2p[num := i], num + 1, i + 1)
    ensures notes[i] < 0 ==> Filled(notes, p2n[i := -1], n2p, num, i + 1)
  {
  }

  lemma FilledIsValid(notes: seq<int>, p2n: seq<int>, listed: seq<int>, n2p: seq<int>, num: nat)
    requires |notes| == |p2n| == |n2p| == |listed| == 12 && 0 < num <= 12 && Filled(notes, p2n, listed, num, 12)
    requires n2p[..num] == listed[..num] && forall r :: num <= r < 12 ==> n2p[r] == -1
    ensures Scale(notes, p2n, n2p, num).Valid()
  {
    assert forall r :: 0 <= r < num ==> n2p[r] == n2p[..num][r] == listed[r];
  }

  lemma FilledEmpty(notes: seq<int>, p2n: seq<int>, n2p: seq<int>)
    requires |notes| == |p2n| == |n2p| == 12
    ensures Filled(notes, p2n, n2p, 0, 0)
  {
  }

  lemma FilledCount(notes: seq<int>, p2n: seq<int>, n2p: seq<int>, num: nat)
    requires |notes| == |p2n| == |n2p| == 12 && Filled(notes, p2n, n2p, num, 12)
    ensures num == Count(notes, 12) <= 12
  {
  }

  /** Fill the two tables for the selected notes; with no note selected, snap to all notes. */
  method BuildTables(notes: array<int>) returns (ghost scale: Scale, p2n: array<int>, n2p: array<int>, num: nat)
    requires notes.Length == 12
    modifies notes
    ensures notes[..] == Effective(old(notes[..]))
    ensures fresh(p2n) && fresh(n2p)
    ensures scale == Scale(notes[..], p2n[..], n2p[..], num) && scale.Valid()
  {
    hide Count, Filled;
    ghost var given := notes[..];
    p2n, n2p := new int[12], new int[12];
    num := 0;
    FilledEmpty(given, p2n[..], n2p[..]);
    for i := 0 to 12
      invariant notes[..] == given && Filled(given, p2n[..], n2p[..], num, i)
    {
      FilledNext(given, p2n[..], n2p[..], num, i);
      if notes[i] >= 0 {
        p2n[i] := num;
        n2p[num] := i;
        num := num + 1;
      } else {
        p2n[i] := -1;
      }
    }
    ghost var listed, filled := n2p[..], p2n[..];
    FilledCount(given, p2n[..], listed, num);
    for r := num to 12
      invariant notes[..] == given && p2n[..] == filled && n2p[..num] == listed[..num]
      invariant forall k :: num <= k < r ==> n2p[k] == -1
    {
      n2p[r] := -1;
    }
    if num == 0 {
      SelectAll(notes, p2n, n2p);
      num := 12;
    } else {
      FilledIsValid(given, p2n[..], listed, n2p[..], num);
    }
    scale := Scale(notes[..], p2n[..], n2p[..], num);
  }

  method SelectAll(notes: array<int>, p2n: array<int>, n2p: array<int>)
    requires notes.Length == p2n.Length == n2p.Length == 12 && notes != p2n && notes != n2p && p2n != n2p
    modifies notes, p2n, n2p
    ensures notes[..] == seq(12, i => 1)
    ensures Scale(notes[..], p2n[..], n2p[..], 12).Valid()
  {
    for i := 0 to 12
      invariant forall k :: 0 <= k < i ==> notes[k] == 1 && p2n[k] == k && n2p[k] == k
    {
      notes[i] := 1;
      p2n[i] := i;
      n2p[i] := i;
    }
    assert notes[..] == seq(12, i => 1);
    forall i | 0 <= i <= 12
      ensures Count(notes[..], i) == i
    {
      CountAll(notes[..], i);
    }
  }

  // ---- The scale laid out over all octaves ----

  /** The degree of semitone j: how many selected notes there are from semitone 0 up to it, over all octaves. */
  function Degree(s: Scale, j: int): int
    requires |s.notes| == 12
  {
    Count(s.notes, j % 12) + s.num * (j / 12)
  }

  /** The semitone of degree d. */
  function Note(s: Scale, d: int): int
    requires |s.note2pitch| == 12 && 0 < s.num <= 12
  {
    s.note2pitch[d % s.num] + 12 * (d / s.num)
  }

  lemma DegreeAt(s: Scale, j: int, q: int, r: int)
    requires |s.notes| == 12 && 0 <= r < 12 && j == 12 * q + r
    ensures Degree(s, j) == Count(s.notes, r) + s.num * q
    ensures s.Selected(j) <==> s.notes[r] >= 0
  {
    Divided(j, 12, q, r);
  }

  lemma DegreeNext(s: Scale, j: int)
    requires s.Valid()
    ensures Degree(s, j + 1) == Degree(s, j) + (if s.Selected(j) then 1 else 0)
  {
    hide Count, Degree;
    var q, r := j / 12, j % 12;
    DegreeAt(s, j, q, r);
    if r == 11 {
      DegreeAt(s, j + 1, q + 1, 0);
      CountStep(s.notes, 11);
      assert s.num * (q + 1) == s.num * q + s.num;
    } else {
      DegreeAt(s, j + 1, q, r + 1);
      CountStep(s.notes, r);
    }
  }

  lemma CountStep(notes: seq<int>, i: nat)
    requires i < |notes|
    ensures Count(notes, i + 1) == Count(notes, i) + (if notes[i] >= 0 then 1 else 0)
    ensures Count(notes, 0) == 0
  {
  }

  /** Between two neighbouring selected notes there is one degree. */
  lemma {:induction false} DegreeOfNext(s: Scale, lo: int, k: int, hi: int)
    requires s.Valid() && lo < k <= hi && s.Selected(lo)
    requires forall j :: lo < j < hi ==> !s.Selected(j)
    ensures Degree(s, k) == Degree(s, lo) + 1
    decreases k - lo
  {
    DegreeNext(s, k - 1);
    if k - 1 > lo {
      DegreeOfNext(s, lo, k - 1, hi);
    }
  }

  /** The note at a selected semitone's degree is that semitone. */
  lemma NoteOfDegree(s: Scale, j: int)
    requires s.Valid() && s.Selected(j)
    ensures Note(s, Degree(s, j)) == j
  {
    var q, r := j / 12, j % 12;
    CountMonotone(s.notes, r, 12);
    Divided(Degree(s, j), s.num, q, Count(s.notes, r));
    assert j == 12 * q + r;
  }

  /** The note at every degree is selected, and has that degree. */
  lemma DegreeOfNote(s: Scale, d: int)
    requires s.Valid()
    ensures s.Selected(Note(s, d)) && Degree(s, Note(s, d)) == d
  {
    hide Count, Degree;
    var q, r := d / s.num, d % s.num;
    var i := s.note2pitch[r];
    assert s.pitch2note[i] == r;
    DegreeAt(s, Note(s, d), q, i);
    assert d == s.num * q + r;
  }

  /** The scale is strictly increasing. */
  lemma {:induction false} DegreeMonotone(s: Scale, i: int, j: int)
    requires s.Valid() && i <= j
    ensures Degree(s, i) <= Degree(s, j)
    decreases j - i
  {
    if i < j {
      DegreeMonotone(s, i, j - 1);
      DegreeNext(s, j - 1);
    }
  }

  lemma NoteIncreases(s: Scale, d: int)
    requires s.Valid()
    ensures Note(s, d) < Note(s, d + 1)
  {
    DegreeOfNote(s, d);
    DegreeOfNote(s, d + 1);
    if Note(s, d + 1) <= Note(s, d) {
      DegreeMonotone(s, Note(s, d + 1), Note(s, d));
    }
  }

  // ---- Semitones to scale notes ----

  /** The lowest selected note; every search of the conversion ends there at the latest. */
  function First(s: Scale): (f: nat)
    requires s.Valid()
    ensures f < 12 && s.notes[f] >= 0
  {
    s.note2pitch[0]
  }

  /** The nearest selected note at or below semitone j, which may lie in the octave below. */
  function Lower(s: Scale, j: int): (r: int)
    requires s.Valid() && j >= First(s) - 12
    ensures First(s) - 12 <= r <= j && s.Selected(r) && forall k :: r < k <= j ==> !s.Selected(k)
    decreases j - (First(s) - 12)
  {
    SameNote(First(s) - 12);
    if s.Selected(j) then j else Lower(s, j - 1)
  }

  /** The nearest selected note at or above semitone j. */
  function Upper(s: Scale, j: int): (r: int)
    requires s.Valid() && j <= First(s) + 12
    ensures j <= r <= First(s) + 12 && s.Selected(r) && forall k :: j <= k < r ==> !s.Selected(k)
    decreases First(s) + 12 - j
  {
    SameNote(First(s));
    if s.Selected(j) then j else Upper(s, j + 1)
  }

  lemma SameNote(j: int)
    ensures (j + 12) % 12 == j % 12
  {
  }

  /** A pitch in scale notes, with the two selected notes around the original pitch, in semitones. */
  datatype Placed = Placed(pitch: real, below: int, above: int)

  /** The fraction of the way from lo to hi. */
  function Fraction(tf: real, lo: int, hi: int): real
    requires lo < hi
  {
    (tf - lo as real) / (hi - lo) as real
  }

  function Octave(p: real): int { Trunc(p / 12.0 + 32.0) - 32 }

  /** The part of the pitch above its octave, and its whole semitones. */
  function Rest(p: real): real { p - (12 * Octave(p)) as real }
  function Within(p: real): int { Rest(p).Floor }

  /** Where a pitch lies in the scale: the degree of the note below it, and the fraction up to the next note. */
  ghost function PlacedAt(s: Scale, p: real): Placed
    requires s.Valid() && p >= -384.0
  {
    OctaveBounds(p);
    var lo, hi := Lower(s, Within(p)), Upper(s, Within(p) + 1);
    Placed(Fraction(Rest(p), lo, hi) + Degree(s, lo + 12 * Octave(p)) as real, lo + 12 * Octave(p), hi + 12 * Octave(p))
  }

  lemma FloorOf(x: real, k: int)
    requires k as real <= x < k as real + 1.0
    ensures x.Floor == k
  {
  }

  lemma OctaveBounds(p: real)
    requires p >= -384.0
    ensures Octave(p) >= -32 && 0 <= Within(p) < 12 && 0.0 <= Rest(p) < 12.0
    ensures Within(p) as real <= Rest(p) < Within(p) as real + 1.0
    ensures p == Rest(p) + (12 * Octave(p)) as real
  {
    var y := p / 12.0 + 32.0;
    assert y >= 0.0;
    assert y.Floor as real <= y < y.Floor as real + 1.0;
  }

  /** The search for the next lower selected note, as the code runs it. */
  method SearchDown(ghost s: Scale, notes: array<int>, j: int) returns (lo: int)
    requires s.Valid() && notes[..] == s.notes && 0 <= j < 12
    ensures lo == Lower(s, j)
  {
    hide Scale.Valid, Count;
    assert notes.Length == |s.notes| == 12 by { ValidShape(s); }
    lo := j;
    while notes[(lo + 12) % 12] < 0
      invariant First(s) - 12 <= lo <= j && Lower(s, lo) == Lower(s, j)
      decreases lo - (First(s) - 12)
    {
      SameNote(lo);
      lo := lo - 1;
    }
    SameNote(lo);
  }

  /** The search for the next higher selected note, as the code runs it. */
  method SearchUp(ghost s: Scale, notes: array<int>, j: int) returns (hi: int)
    requires s.Valid() && notes[..] == s.notes && 0 < j <= 12
    ensures hi == Upper(s, j)
  {
    hide Scale.Valid, Count;
    assert notes.Length == |s.notes| == 12 by { ValidShape(s); }
    hi := j;
    while notes[hi % 12] < 0
      invariant j <= hi <= First(s) + 12 && Upper(s, hi) == Upper(s, j)
      decreases First(s) + 12 - hi
    {
      hi := hi + 1;
    }
  }

  lemma ValidShape(s: Scale)
    requires s.Valid()
    ensures |s.notes| == |s.pitch2note| == |s.note2pitch| == 12 && 0 < s.num <= 12 && s.num == Count(s.notes, 12)
  {
  }

  /** The conversion as the code runs it: octave, whole semitone, two searches, one table entry. */
  method ToScale(ghost s: Scale, notes: array<int>, p2n: array<int>, num: nat, p: real)
    returns (pitch: real, lo: int, hi: int, octave: int)
    requires s.Valid() && notes[..] == s.notes && p2n[..] == s.pitch2note && num == s.num
    requires p >= -384.0
    ensures Placed(pitch, lo + 12 * octave, hi + 12 * octave) == PlacedAt(s, p)
  {
    hide Scale.Valid, Count, Degree, Lower, Upper, First;
    assert p2n.Length == 12 by { ValidShape(s); }
    OctaveBounds(p);
    octave := Trunc(p / 12.0 + 32.0) - 32;
    var tf := p - (octave * 12) as real;
    var within := Trunc(tf);
    assert within == tf.Floor;
    lo := SearchDown(s, notes, within);
    hi := SearchUp(s, notes, within + 1);
    pitch := Fraction(tf, lo, hi) + p2n[(lo + 12) % 12] as real;
    if lo < 0 {
      pitch := pitch - num as real;
    }
    pitch := pitch + (num * octave) as real;
    DegreeInOctave(s, lo, octave);
  }

  /** The table entry of a selected note, carried into its octave, is its degree. */
  lemma DegreeInOctave(s: Scale, lo: int, o: int)
    requires s.Valid() && -12 <= lo < 12 && s.Selected(lo)
    ensures Degree(s, lo + 12 * o) == s.pitch2note[(lo + 12) % 12] - (if lo < 0 then s.num else 0) + s.num * o
  {
    hide Count, Degree;
    if lo < 0 {
      Divided(lo + 12, 12, 0, lo + 12);
      DegreeAt(s, lo + 12 * o, o - 1, lo + 12);
      Distribute(s.num, o, 1);
      DegreeAt(s, lo, -1, lo + 12);
    } else {
      Divided(lo + 12, 12, 1, lo);
      DegreeAt(s, lo + 12 * o, o, lo);
      DegreeAt(s, lo, 0, lo);
    }
  }

  // ---- Scale notes to semitones ----

  /** The point at fraction f of the way from a to b. */
  function Line(a: int, b: int, f: real): real {
    a as real + (b - a) as real * f
  }

  /** The straight line between the notes of two neighbouring degrees. */
  ghost function Interpolated(s: Scale, u: real): real
    requires s.Valid()
  {
    Line(Note(s, u.Floor), Note(s, u.Floor + 1), u - u.Floor as real)
  }

  lemma ScaleOctave(u: real, num: nat)
    requires 0 < num && u >= -((32 * num) as real)
    ensures Trunc(u / num as real + 32.0) - 32 == u.Floor / num
    ensures (u - ((u.Floor / num) * num) as real).Floor == u.Floor % num
    ensures 0.0 <= u - ((u.Floor / num) * num) as real
  {
    var d, q, r := u.Floor, u.Floor / num, u.Floor % num;
    Parts(d, num);
    CastProduct(q, num);
    OctaveQuotient(u, u / num as real, num as real, q, (q * num) as real, r);
    FloorOf(u / num as real + 32.0, q + 32);
    FloorOf(u - (q * num) as real, r);
  }

  lemma {:induction false} CastProduct(q: int, num: nat)
    ensures (q * num) as real == q as real * num as real
    decreases num
  {
    if num > 0 {
      CastProduct(q, num - 1);
      Distribute(q, num, 1);
      assert q as real * (num - 1) as real == q as real * num as real - q as real;
    }
  }

  lemma OctaveQuotient(u: real, y: real, m: real, q: int, base: real, r: nat)
    requires m >= 1.0 && y * m == u && base == q as real * m && u >= -32.0 * m
    requires base + r as real <= u < base + r as real + 1.0 && r as real + 1.0 <= m
    ensures q as real <= y < q as real + 1.0 && q >= -32
  {
    Cancelled(y, q as real, m);
    Cancelled(y, q as real + 1.0, m);
    Cancelled(y, -32.0, m);
    assert (q as real + 1.0) * m == base + m;
  }

  lemma Cancelled(a: real, b: real, m: real)
    requires m > 0.0
    ensures a * m >= b * m <==> a >= b
  {
    Ordered(a, b, m);
  }

  lemma Ordered(a: real, b: real, m: real)
    requires m > 0.0
    ensures a * m >= m * b <==> a >= b
  {
    Signs(a - b, m);
    assert a * m - m * b == (a - b) * m;
  }

  lemma Signs(d: real, m: real)
    requires m > 0.0
    ensures d * m >= 0.0 <==> d >= 0.0
  {
  }

  /** Octave and position of a pitch in scale notes, as the code finds them. */
  method SplitScalePitch(num: nat, u: real) returns (octave: int, lo: int, f: real)
    requires 0 < num && u >= -((32 * num) as real)
    ensures octave == u.Floor / num && lo == u.Floor % num && f == u - u.Floor as real
  {
    ScaleOctave(u, num);
    octave := Trunc(u / num as real + 32.0) - 32;
    var tf := u - (octave * num) as real;
    lo := Trunc(tf);
    f := tf - lo as real;
    Rebased(u, u.Floor, num, octave, lo, tf);
  }

  /** The conversion back as the code runs it, without scale rotation. */
  method FromScale(ghost s: Scale, n2p: array<int>, num: nat, u: real) returns (p: real)
    requires s.Valid() && n2p[..] == s.note2pitch && num == s.num
    requires u >= -((32 * num) as real)
    ensures p == Interpolated(s, u)
  {
    ValidShape(s);
    hide Count, Degree, Note, Interpolated, Scale.Valid, Line;
    var octave, lo, f := SplitScalePitch(num, u);
    var hi := lo + 1;
    var step := n2p[hi % num] - n2p[lo];
    if hi >= num {
      step := step + 12;
    }
    InterpolatedInOctave(s, u, octave, lo, step);
    p := step as real * f;
    LineFromZero(step, f, p);
    p := p + n2p[lo] as real;
    p := p + (12 * octave) as real;
  }

  lemma NoteAt(s: Scale, d: int, q: int, r: int)
    requires |s.note2pitch| == 12 && 0 < s.num <= 12 && 0 <= r < s.num && d == s.num * q + r
    ensures Note(s, d) == s.note2pitch[r] + 12 * q
  {
    Divided(d, s.num, q, r);
  }

  lemma NextInOctave(s: Scale, d: int, octave: int, lo: int)
    requires s.Valid() && octave == d / s.num && lo == d % s.num
    ensures Note(s, d) == s.note2pitch[lo] + 12 * octave
    ensures Note(s, d + 1) == s.note2pitch[(lo + 1) % s.num] + 12 * octave + (if lo + 1 >= s.num then 12 else 0)
  {
    hide *;
    ValidShape(s);
    Parts(d, s.num);
    NoteAt(s, d, octave, lo);
    if lo + 1 == s.num {
      Distribute(s.num, octave, 1);
      NoteAt(s, d + 1, octave + 1, 0);
      WrappedRemainder(s.num, s.num);
    } else {
      NoteAt(s, d + 1, octave, lo + 1);
      SmallRemainder(lo + 1, s.num);
    }
  }

  lemma InterpolatedInOctave(s: Scale, u: real, octave: int, lo: int, step: int)
    requires s.Valid()
    requires octave == u.Floor / s.num && lo == u.Floor % s.num
    requires step == s.note2pitch[(lo + 1) % s.num] - s.note2pitch[lo] + (if lo + 1 >= s.num then 12 else 0)
    ensures Interpolated(s, u) == Line(0, step, u - u.Floor as real) + s.note2pitch[lo] as real + (12 * octave) as real
  {
    ValidShape(s);
    hide Scale.Valid, Count, Note, Line;
    var d := u.Floor;
    NextInOctave(s, d, octave, lo);
    LineFrom(Note(s, d), Note(s, d + 1), s.note2pitch[lo], octave, step, u - d as real);
  }

  lemma LineFromZero(step: int, f: real, p: real)
    requires p == step as real * f
    ensures Line(0, step, f) == p
  {
  }

  lemma LineFrom(a: int, b: int, n: int, octave: int, step: int, f: real)
    requires a == n + 12 * octave && step == b - a
    ensures Line(a, b, f) == Line(0, step, f) + n as real + (12 * octave) as real
  {
  }

  lemma Rebased(u: real, d: int, num: nat, octave: int, lo: int, tf: real)
    requires 0 < num && octave == d / num && lo == d % num && tf == u - (octave * num) as real
    ensures tf - lo as real == u - d as real
  {
    assert d == num * octave + lo;
  }

  // ---- The two conversions together ----

  lemma FractionBounds(tf: real, j: int, lo: int, hi: int, o: int)
    requires j as real <= tf < j as real + 1.0 && lo <= j < hi
    ensures 0.0 <= Fraction(tf, lo, hi) < 1.0
    ensures Line(lo + 12 * o, hi + 12 * o, Fraction(tf, lo, hi)) == tf + (12 * o) as real
    ensures (lo + 12 * o) as real <= tf + (12 * o) as real < (hi + 12 * o) as real
  {
    QuotientBetween(tf - lo as real, (hi - lo) as real);
    assert (hi + 12 * o) - (lo + 12 * o) == hi - lo;
  }

  lemma QuotientBetween(x: real, m: real)
    requires 0.0 <= x < m
    ensures 0.0 <= x / m < 1.0 && m * (x / m) == x
  {
    var f := x / m;
    assert f * m == x;
    Cancelled(f, 0.0, m);
    Cancelled(f, 1.0, m);
  }

  lemma SelectedShift(s: Scale, j: int, o: int)
    requires |s.notes| == 12
    ensures s.Selected(j + 12 * o) == s.Selected(j)
  {
  }

  /** Between neighbouring selected notes lie no further degrees. */
  lemma NeighboursInOctave(s: Scale, j: int, o: int)
    requires s.Valid() && 0 <= j < 12
    ensures var lo, hi := Lower(s, j) + 12 * o, Upper(s, j + 1) + 12 * o;
      lo < hi && Note(s, Degree(s, lo)) == lo && Note(s, Degree(s, lo) + 1) == hi
  {
    var lo, hi := Lower(s, j), Upper(s, j + 1);
    ValidShape(s);
    hide Count, Note, Degree, Scale.Valid, Scale.Selected, Lower, Upper, First;
    forall k | lo + 12 * o < k < hi + 12 * o
      ensures !s.Selected(k)
    {
      SelectedShift(s, k - 12 * o, o);
    }
    SelectedShift(s, lo, o);
    SelectedShift(s, hi, o);
    NoteOfDegree(s, lo + 12 * o);
    NoteOfDegree(s, hi + 12 * o);
    DegreeOfNext(s, lo + 12 * o, hi + 12 * o, hi + 12 * o);
  }

  lemma PlacedIs(s: Scale, p: real)
    requires s.Valid() && p >= -384.0
    ensures 0 <= Within(p) < 12
    ensures var lo, hi, o := Lower(s, Within(p)), Upper(s, Within(p) + 1), Octave(p);
      PlacedAt(s, p) == Placed(Fraction(Rest(p), lo, hi) + Degree(s, lo + 12 * o) as real, lo + 12 * o, hi + 12 * o)
  {
    OctaveBounds(p);
  }

  /** The degree of the note below is the whole part of the pitch in scale notes. */
  lemma PlacedDegree(s: Scale, p: real)
    requires s.Valid() && p >= -384.0
    ensures var at := PlacedAt(s, p);
      && at.pitch.Floor == Degree(s, at.below)
      && at.below as real <= p < at.above as real && Line(at.below, at.above, at.pitch - Degree(s, at.below) as real)
          == p
  {
    PlacedIs(s, p);
    ValidShape(s);
    OctaveBounds(p);
    hide *;
    var lo, hi := Lower(s, Within(p)), Upper(s, Within(p) + 1);
    FractionBounds(Rest(p), Within(p), lo, hi, Octave(p));
    FloorOf(PlacedAt(s, p).pitch, Degree(s, lo + 12 * Octave(p)));
  }

  lemma PlacedNeighbours(s: Scale, p: real)
    requires s.Valid() && p >= -384.0
    ensures var at := PlacedAt(s, p);
      Note(s, Degree(s, at.below)) == at.below && Note(s, Degree(s, at.below) + 1) == at.above
  {
    PlacedIs(s, p);
    ValidShape(s);
    hide *;
    NeighboursInOctave(s, Within(p), Octave(p));
  }

  /** The enclosing notes are neighbours in the scale, and the pitch in scale notes lies between their degrees. */
  lemma PlacedBetween(s: Scale, p: real)
    requires s.Valid() && p >= -384.0
    ensures var at := PlacedAt(s, p); var d := at.pitch.Floor;
      && Note(s, d) == at.below && Note(s, d + 1) == at.above
      && at.below as real <= p < at.above as real
      && Line(at.below, at.above, at.pitch - d as real) == p
  {
    ValidShape(s);
    hide Count, Note, Degree, Scale.Valid, PlacedAt, Line;
    PlacedDegree(s, p);
    PlacedNeighbours(s, p);
  }

  /** Converting a pitch to scale notes and back gives the same pitch. */
  lemma RoundTrip(s: Scale, p: real)
    requires s.Valid() && p >= -384.0
    ensures Interpolated(s, PlacedAt(s, p).pitch) == p
  {
    hide Count, Note, Degree, Scale.Valid, PlacedAt;
    PlacedBetween(s, p);
  }

  lemma LineIncreases(a: int, b: int, f: real, g: real)
    requires a < b && f < g
    ensures Line(a, b, f) < Line(a, b, g)
    ensures Line(a, b, 0.0) == a as real && Line(a, b, 1.0) == b as real
  {
    var m := (b - a) as real;
    assert (g - f) * m > 0.0;
  }

  lemma {:induction false} NotesMonotone(s: Scale, d: int, e: int)
    requires s.Valid() && d <= e
    ensures Note(s, d) <= Note(s, e)
    decreases e - d
  {
    if d < e {
      NoteIncreases(s, e - 1);
      NotesMonotone(s, d, e - 1);
    }
  }

  /** A pitch between two degrees is converted to one between their notes, ends included. */
  lemma InterpolatedBetween(s: Scale, u: real, d: int)
    requires s.Valid() && d as real <= u <= d as real + 1.0
    ensures Note(s, d) as real <= Interpolated(s, u) <= Note(s, d + 1) as real
    ensures u < d as real + 1.0 ==> Interpolated(s, u) < Note(s, d + 1) as real
    ensures u == d as real ==> Interpolated(s, u) == Note(s, d) as real
    ensures u == d as real + 1.0 ==> Interpolated(s, u) == Note(s, d + 1) as real
  {
    NoteIncreases(s, d);
    NoteIncreases(s, d + 1);
    ValidShape(s);
    hide Scale.Valid, Count, Note, Line;
    if u < d as real + 1.0 {
      FloorOf(u, d);
      LineEnds(Note(s, d), Note(s, d + 1), u - d as real);
    } else {
      FloorOf(u, d + 1);
      LineEnds(Note(s, d + 1), Note(s, d + 2), 0.0);
    }
  }

  lemma LineEnds(a: int, b: int, f: real)
    requires a < b && 0.0 <= f < 1.0
    ensures a as real <= Line(a, b, f) < b as real
    ensures f == 0.0 ==> Line(a, b, f) == a as real
  {
    LineIncreases(a, b, f, 1.0);
    if 0.0 < f {
      LineIncreases(a, b, 0.0, f);
    }
  }

  /** The conversion back is strictly increasing. */
  lemma InterpolatedIncreases(s: Scale, u: real, v: real)
    requires s.Valid() && u < v
    ensures Interpolated(s, u) < Interpolated(s, v)
  {
    ValidShape(s);
    hide Scale.Valid, Count, Note, Line;
    var d, e := u.Floor, v.Floor;
    FloorBounds(u);
    FloorBounds(v);
    if d == e {
      NoteIncreases(s, d);
      LineIncreases(Note(s, d), Note(s, d + 1), u - d as real, v - d as real);
    } else {
      assert d + 1 <= e;
      hide Interpolated;
      InterpolatedBetween(s, u, d);
      InterpolatedBetween(s, v, e);
      NotesMonotone(s, d + 1, e);
    }
  }

  lemma FloorBounds(x: real)
    ensures x.Floor as real <= x < x.Floor as real + 1.0
  {
  }

  /** The two conversions are inverse bijections: the other way round, too, nothing is lost. */
  lemma RoundTripFromScale(s: Scale, u: real)
    requires s.Valid() && Interpolated(s, u) >= -384.0
    ensures PlacedAt(s, Interpolated(s, u)).pitch == u
  {
    hide Count, Note, Degree, Scale.Valid, PlacedAt, Interpolated;
    var p := Interpolated(s, u);
    RoundTrip(s, p);
    var v := PlacedAt(s, p).pitch;
    if v < u {
      InterpolatedIncreases(s, v, u);
    } else if u < v {
      InterpolatedIncreases(s, u, v);
    }
  }

  /** Which pitches come out at degree d or above: those from its note on. */
  lemma PlacedFrom(s: Scale, p: real, d: int)
    requires s.Valid() && p >= -384.0
    ensures PlacedAt(s, p).pitch >= d as real <==> p >= Note(s, d) as real
  {
    hide Count, Note, Degree, Scale.Valid, PlacedAt, Interpolated;
    RoundTrip(s, p);
    var v := PlacedAt(s, p).pitch;
    InterpolatedBetween(s, d as real, d);
    if v < d as real {
      InterpolatedIncreases(s, v, d as real);
    } else if d as real < v {
      InterpolatedIncreases(s, d as real, v);
    }
  }

  /** The lowest note of octave -32 limits what the way back accepts. */
  lemma LowestNote(s: Scale)
    requires s.Valid()
    ensures Note(s, -(32 * s.num)) == First(s) - 384
  {
    hide Count;
    Divided(-(32 * s.num), s.num, -32, 0);
  }

  /** For every scale, pitches from 128 semitones below the reference on are within reach of the correction. */
  lemma ReachOfCorrection(s: Scale)
    requires s.Valid()
    ensures Note(s, -128) <= -128
  {
    ValidShape(s);
    hide Count, Note, Degree, Scale.Valid;
    DegreeOfNote(s, -128);
    DegreeAt(s, -127, -11, 5);
    CountMonotone(s.notes, 5, 12);
    if Note(s, -128) >= -127 {
      DegreeMonotone(s, -127, Note(s, -128));
    }
  }

  // ---- Pitch correction ----

  function Stretched(x: real, stretch: real, smooth: real): real
    requires smooth != 0.0
  {
    x * stretch / smooth
  }

  function Clamped(x: real): real {
    if x < -0.5 then -0.5 else if x > 0.5 then 0.5 else x
  }

  /**
   The distance from the middle between two notes, stretched by the smoothing, and for notes far apart by their
   distance.
   */
  function Position(u: real, width: int, smooth: real): (t: real)
    ensures -0.5 <= t <= 0.5
  {
    var stretch := if width > 2 then width as real / 2.0 else 1.0;
    Clamped(Stretched(u - u.Floor as real - 0.5, stretch, if smooth < 0.001 then 0.001 else smooth))
  }

  /** Where full correction moves a pitch in scale notes: along a piece of a wave between the two notes. */
  function Target(u: real, width: int, smooth: real, wave: real -> real): real {
    u.Floor as real + (0.5 * wave(Position(u, width, smooth)) + 0.5)
  }

  /** The point at fraction amount of the way from u to a. */
  function Blend(u: real, a: real, amount: real): real {
    u + amount * (a - u)
  }

  /** A wave that keeps to the range of a sine. */
  ghost predicate Sine(wave: real -> real) {
    forall t :: -0.5 <= t <= 0.5 ==> -1.0 <= wave(t) <= 1.0
  }

  /** Between semitones j and j + 1 there is something to correct: an unselected note, or one marked for snapping. */
  predicate Snaps(notes: seq<int>, j: int)
    requires |notes| == 12
  {
    notes[j % 12] < 0 || notes[(j + 1) % 12] < 0 || notes[j % 12] == 1
  }

  /** The same seen from above: an unselected note, or the upper one marked for snapping. */
  predicate SnapsUp(notes: seq<int>, j: int)
    requires |notes| == 12
  {
    notes[j % 12] < 0 || notes[(j + 1) % 12] < 0 || notes[(j + 1) % 12] == 1
  }

  /**
   Between two selected notes there is something to snap to exactly when the lower one is marked 1, as notes are
   marked -1, 0 or 1; next to a note that is not selected there always is.
   */
  lemma SnapsToMarked(s: Scale, j: int)
    requires s.Valid() && forall i :: 0 <= i < 12 ==> -1 <= s.notes[i] <= 1
    ensures Snaps(s.notes, j) <==> (s.Selected(j) && s.Selected(j + 1) ==> s.notes[j % 12] != 0)
  {
    ValidShape(s);
    hide Scale.Valid;
  }

  /** The two flags of the conversion; the upper one turns out never to be asked. */
  method SnapFlags(notes: array<int>, j: int) returns (lower: bool, upper: bool)
    requires notes.Length == 12 && 0 <= j < 12
    ensures lower <==> Snaps(notes[..], j)
    ensures upper <==> SnapsUp(notes[..], j)
  {
    if notes[j % 12] < 0 || notes[(j + 1) % 12] < 0 {
      lower, upper := true, true;
    } else {
      lower, upper := false, false;
      if notes[j % 12] == 1 {
        lower := true;
      }
      if notes[(j + 1) % 12] == 1 {
        upper := true;
      }
    }
  }

  /** The stretching and clamping, as the code runs it. */
  method Stretch(ghost u: real, tf: real, width: int, smooth: real) returns (tf2: real)
    requires tf == u - u.Floor as real - 0.5
    ensures tf2 == Position(u, width, smooth)
  {
    hide Stretched;
    tf2 := 1.0;
    if width > 2 {
      tf2 := width as real / 2.0;
    }
    if smooth < 0.001 {
      tf2 := Stretched(tf, tf2, 0.001);
    } else {
      tf2 := Stretched(tf, tf2, smooth);
    }
    if tf2 < -0.5 {
      tf2 := -0.5;
    }
    if tf2 > 0.5 {
      tf2 := 0.5;
    }
  }

  /**
   The correction as the code runs it. The distance from the middle never reaches one half, so the upper flag has no
   say.
   */
  method Correct(u: real, width: int, lower: bool, upper: bool, smooth: real, amount: real, wave: real -> real)
    returns (r: real)
    requires u >= -128.0
    ensures r == if lower then Blend(u, Target(u, width, smooth, wave), amount) else u
  {
    hide Position;
    var ti := Trunc(u + 128.0) - 128;
    WholePart(u);
    var tf := u - ti as real - 0.5;
    var tf2 := Stretch(u, tf, width, smooth);
    tf2 := 0.5 * wave(tf2) + 0.5;
    tf2 := tf2 + ti as real;
    r := u;
    if (tf < 0.5 && lower) || (tf >= 0.5 && upper) {
      r := amount * tf2 + (1.0 - amount) * u;
      Blended(amount, tf2, u);
    }
  }

  lemma Blended(amount: real, a: real, u: real)
    ensures amount * a + (1.0 - amount) * u == Blend(u, a, amount)
  {
  }

  lemma WholePart(u: real)
    requires u >= -128.0
    ensures Trunc(u + 128.0) - 128 == u.Floor && u - u.Floor as real < 1.0
  {
    FloorOf(u + 128.0, u.Floor + 128);
  }

  lemma BlendBetween(u: real, a: real, amount: real, lo: real, hi: real)
    requires 0.0 <= amount <= 1.0 && lo <= u <= hi && lo <= a <= hi
    ensures lo <= Blend(u, a, amount) <= hi
    ensures amount == 0.0 ==> Blend(u, a, amount) == u
    ensures amount == 1.0 ==> Blend(u, a, amount) == a
  {
    var y := amount * (a - u);
    assert Blend(u, a, amount) == u + y;
    PartOf(amount, a - u, y);
  }

  /** A part of a distance, in either direction, lies between nothing and the whole. */
  lemma PartOf(m: real, x: real, y: real)
    requires 0.0 <= m <= 1.0 && y == m * x
    ensures if x >= 0.0 then 0.0 <= y <= x else x <= y <= 0.0
    ensures (m == 0.0 ==> y == 0.0) && (m == 1.0 ==> y == x)
  {
    var rest := 1.0 - m;
    Remaining(m, x, y, rest, rest * x);
    if x >= 0.0 {
      NonNegativeProduct(m, x);
      NonNegativeProduct(rest, x);
    } else {
      Opposite(m, x);
      Opposite(rest, x);
      NonNegativeProduct(m, -x);
      NonNegativeProduct(rest, -x);
    }
  }

  lemma Remaining(m: real, x: real, y: real, rest: real, z: real)
    requires rest == 1.0 - m && y == m * x && z == rest * x
    ensures y + z == x
  {
  }

  lemma Opposite(m: real, x: real)
    ensures m * -x == -(m * x)
  {
  }

  lemma TargetBetween(u: real, width: int, smooth: real, wave: real -> real)
    requires Sine(wave)
    ensures u.Floor as real <= Target(u, width, smooth, wave) <= u.Floor as real + 1.0
  {
    var t := Position(u, width, smooth);
    var w := wave(t);
    assert -1.0 <= w <= 1.0;
    hide Position;
    assert Target(u, width, smooth, wave) == u.Floor as real + (0.5 * w + 0.5);
  }

  /** A pitch in scale notes moved between the two degrees around it comes back between the enclosing notes. */
  lemma MovedBetween(s: Scale, p: real, r: real)
    requires s.Valid() && p >= -384.0
    requires var d := PlacedAt(s, p).pitch.Floor; d as real <= r <= d as real + 1.0
    ensures PlacedAt(s, p).below as real <= Interpolated(s, r) <= PlacedAt(s, p).above as real
    ensures r == PlacedAt(s, p).pitch ==> Interpolated(s, r) == p
  {
    hide *;
    InterpolatedBetween(s, r, PlacedAt(s, p).pitch.Floor);
    PlacedBetween(s, p);
    RoundTrip(s, p);
  }

  /** What is moved so from the lowest note on stays within reach of the conversion back. */
  lemma MovedInRange(s: Scale, p: real, r: real)
    requires s.Valid() && p >= -384.0 && p >= (First(s) - 384) as real
    requires r >= PlacedAt(s, p).pitch.Floor as real
    ensures r >= -((32 * s.num) as real)
  {
    hide *;
    var d := -(32 * s.num);
    LowestNote(s);
    PlacedFrom(s, p, d);
    FloorFrom(PlacedAt(s, p).pitch, d);
  }

  lemma FloorFrom(x: real, k: int)
    requires x >= k as real
    ensures x.Floor >= k
  {
  }

  /** What a strength is: the share that a pitch is moved of the way to where full strength moves it. */
  lemma BlendShare(u: real, a: real, amount: real)
    ensures Blend(u, a, amount) - u == amount * (a - u)
    ensures a - Blend(u, a, amount) == (1.0 - amount) * (a - u)
  {
  }

  /** How the correction moves a pitch in scale notes. */
  lemma CorrectedBetween(u: real, width: int, lower: bool, smooth: real, amount: real, wave: real -> real, r: real)
    requires 0.0 <= amount <= 1.0 && Sine(wave)
    requires r == if lower then Blend(u, Target(u, width, smooth, wave), amount) else u
    ensures u.Floor as real <= r <= u.Floor as real + 1.0
    ensures amount == 0.0 || !lower ==> r == u
    ensures amount == 1.0 && lower ==> r == Target(u, width, smooth, wave)
    ensures lower ==> r == Blend(u, Target(u, width, smooth, wave), amount)
  {
    TargetBetween(u, width, smooth, wave);
    FloorBounds(u);
    hide *;
    BlendBetween(u, Target(u, width, smooth, wave), amount, u.Floor as real, u.Floor as real + 1.0);
  }

  /** The stronger the correction, the further the pitch is moved, towards where full strength moves it. */
  lemma StrengthIncreases(s: Scale, u: real, a: real, weak: real, strong: real)
    requires s.Valid() && weak <= strong
    ensures a >= u ==> Interpolated(s, Blend(u, a, weak)) <= Interpolated(s, Blend(u, a, strong))
    ensures a <= u ==> Interpolated(s, Blend(u, a, weak)) >= Interpolated(s, Blend(u, a, strong))
    ensures a != u && weak < strong ==> Interpolated(s, Blend(u, a, weak)) != Interpolated(s, Blend(u, a, strong))
  {
    hide *;
    var v, w := Blend(u, a, weak), Blend(u, a, strong);
    BlendShare(u, a, weak);
    BlendShare(u, a, strong);
    SharesApart(u, a, weak, strong, v, w);
    if v < w {
      InterpolatedIncreases(s, v, w);
    } else if w < v {
      InterpolatedIncreases(s, w, v);
    }
  }

  lemma SharesApart(u: real, a: real, weak: real, strong: real, v: real, w: real)
    requires weak <= strong && v == u + weak * (a - u) && w == u + strong * (a - u)
    ensures a >= u ==> v <= w
    ensures a <= u ==> w <= v
    ensures a != u && weak < strong ==> v != w
  {
    var d := a - u;
    var m := strong - weak;
    DifferenceOfShares(weak, strong, d, m * d);
    assert w - v == m * d;
    if d >= 0.0 {
      NonNegativeProduct(m, d);
    } else {
      Opposite(m, d);
      NonNegativeProduct(m, -d);
    }
    if d != 0.0 && m > 0.0 {
      ProductSign(d, m);
    }
  }

  lemma DifferenceOfShares(weak: real, strong: real, d: real, md: real)
    requires md == (strong - weak) * d
    ensures md == strong * d - weak * d
  {
  }

  /** Placing and correcting: the pitch in scale notes is moved between the two degrees around it. */
  method Corrected(ghost s: Scale, notes: array<int>, p2n: array<int>, num: nat,
                   p: real, smooth: real, amount: real, wave: real -> real)
    returns (r: real)
    requires s.Valid() && notes[..] == s.notes && p2n[..] == s.pitch2note && num == s.num
    requires p >= -384.0 && p >= Note(s, -128) as real
    requires 0.0 <= amount <= 1.0 && Sine(wave)
    ensures var d := PlacedAt(s, p).pitch.Floor; d as real <= r <= d as real + 1.0
    ensures amount == 0.0 || !Snaps(s.notes, Within(p)) ==> r == PlacedAt(s, p).pitch
    ensures amount == 1.0 && Snaps(s.notes, Within(p)) ==>
      var at := PlacedAt(s, p); r == Target(at.pitch, at.above - at.below, smooth, wave)
    ensures Snaps(s.notes, Within(p)) ==>
      var at := PlacedAt(s, p);
      r == Blend(at.pitch, Target(at.pitch, at.above - at.below, smooth, wave), amount)
  {
    ValidShape(s);
    OctaveBounds(p);
    hide *;
    var u, lo, hi, octave := ToScale(s, notes, p2n, num, p);
    PlacedFrom(s, p, -128);
    var lower, upper := SnapFlags(notes, WholeSemitone(p));
    r := Correct(u, hi - lo, lower, upper, smooth, amount, wave);
    CorrectedBetween(u, hi - lo, lower, smooth, amount, wave, r);
  }

  /**
   From semitones to semitones: placing, correcting and converting back. Correction of any strength keeps a pitch
   between the two selected notes that enclose it, moves it by exactly that share of the way that full strength would
   in scale notes, and leaves it alone when there is nothing to snap to.
   */
  method Retune(ghost s: Scale, notes: array<int>, p2n: array<int>, n2p: array<int>, num: nat,
                p: real, smooth: real, amount: real, wave: real -> real)
    returns (out: real)
    requires s.Valid() && notes[..] == s.notes && p2n[..] == s.pitch2note && n2p[..] == s.note2pitch && num == s.num
    requires p >= Note(s, -128) as real && p >= -384.0 && p >= (First(s) - 384) as real
    requires 0.0 <= amount <= 1.0 && Sine(wave)
    ensures PlacedAt(s, p).below as real <= out <= PlacedAt(s, p).above as real
    ensures amount == 0.0 || !Snaps(s.notes, Within(p)) ==> out == p
    ensures amount == 1.0 && Snaps(s.notes, Within(p)) ==>
      var at := PlacedAt(s, p); out == Interpolated(s, Target(at.pitch, at.above - at.below, smooth, wave))
    ensures Snaps(s.notes, Within(p)) ==>
      var at := PlacedAt(s, p);
      out == Interpolated(s, Blend(at.pitch, Target(at.pitch, at.above - at.below, smooth, wave), amount))
  {
    hide *;
    var r := Corrected(s, notes, p2n, num, p, smooth, amount, wave);
    MovedInRange(s, p, r);
    out := FromScale(s, n2p, num, r);
    MovedBetween(s, p, r);
  }

  function WholeSemitone(p: real): (j: int)
    requires p >= -384.0
    ensures j == Within(p)
  {
    OctaveBounds(p);
    Trunc(p - ((Trunc(p / 12.0 + 32.0) - 32) * 12) as real)
  }

  /**
   Half the width of the transition between two notes, in scale notes: at least a thousandth for notes up to two
   semitones apart, and for notes further apart narrower in proportion.
   */
  function Transition(width: int, smooth: real): real {
    (if smooth < 0.001 then 0.001 else smooth) / (if width > 2 then width as real else 2.0)
  }

  /**
   With full strength a pitch outside the transition between two notes ends exactly on the nearer one, however far
   apart they are.
   */
  lemma SnapsExactly(s: Scale, u: real, width: int, smooth: real, wave: real -> real)
    requires s.Valid() && wave(-0.5) == -1.0 && wave(0.5) == 1.0
    ensures var f := u - u.Floor as real;
      && (f <= 0.5 - Transition(width, smooth) ==>
            Interpolated(s, Target(u, width, smooth, wave)) == Note(s, u.Floor) as real)
      && (f >= 0.5 + Transition(width, smooth) ==>
            Interpolated(s, Target(u, width, smooth, wave)) == Note(s, u.Floor + 1) as real)
  {
    hide Scale.Valid, Count, Note, Interpolated, Position, Transition;
    var x := u - u.Floor as real - 0.5;
    PositionOutside(u, width, smooth);
    InterpolatedBetween(s, u.Floor as real, u.Floor);
    InterpolatedBetween(s, u.Floor as real + 1.0, u.Floor);
  }

  /** Within the transition the target follows the wave, at the share of the transition that the pitch has come. */
  lemma TargetSwing(u: real, width: int, smooth: real, wave: real -> real, t: real)
    requires -0.5 <= t <= 0.5 && u == u.Floor as real + 0.5 + t * (2.0 * Transition(width, smooth))
    ensures Target(u, width, smooth, wave) == u.Floor as real + (1.0 + wave(t)) / 2.0
  {
    hide Stretched, Transition;
    var stretch := if width > 2 then width as real / 2.0 else 1.0;
    var m := if smooth < 0.001 then 0.001 else smooth;
    StretchedBack(t * (2.0 * Transition(width, smooth)), t, width, smooth, stretch, m);
    assert Position(u, width, smooth) == t;
  }

  lemma StretchedBack(x: real, t: real, width: int, smooth: real, stretch: real, m: real)
    requires stretch == (if width > 2 then width as real / 2.0 else 1.0)
    requires m == if smooth < 0.001 then 0.001 else smooth
    requires x == t * (2.0 * Transition(width, smooth))
    ensures Stretched(x, stretch, m) == t
  {
    var half := Transition(width, smooth);
    TransitionTimes(width, smooth, stretch, m);
    assert x * stretch == t * (2.0 * half * stretch);
    Undone(t, m, x * stretch);
  }

  lemma TransitionTimes(width: int, smooth: real, stretch: real, m: real)
    requires stretch == (if width > 2 then width as real / 2.0 else 1.0)
    requires m == if smooth < 0.001 then 0.001 else smooth
    ensures 2.0 * Transition(width, smooth) * stretch == m
  {
    var w := if width > 2 then width as real else 2.0;
    assert Transition(width, smooth) * w == m;
  }

  lemma Undone(t: real, m: real, y: real)
    requires m > 0.0 && y == t * m
    ensures y / m == t
  {
  }

  lemma PositionOutside(u: real, width: int, smooth: real)
    ensures var x := u - u.Floor as real - 0.5;
      && (x <= -Transition(width, smooth) ==> Position(u, width, smooth) == -0.5)
      && (x >= Transition(width, smooth) ==> Position(u, width, smooth) == 0.5)
  {
    var x := u - u.Floor as real - 0.5;
    var stretch := if width > 2 then width as real / 2.0 else 1.0;
    var m := if smooth < 0.001 then 0.001 else smooth;
    var half := Transition(width, smooth);
    var y := Stretched(x, stretch, m);
    TransitionTimes(width, smooth, stretch, m);
    assert y * m == x * stretch;
    hide Stretched, Transition;
    Steep(x, half, stretch, m, y);
  }

  lemma Steep(x: real, half: real, stretch: real, m: real, y: real)
    requires m > 0.0 && stretch > 0.0 && 2.0 * half * stretch == m && y * m == x * stretch
    ensures x <= -half ==> y <= -0.5
    ensures x >= half ==> y >= 0.5
  {
    var z := x * stretch;
    Compared(x, -half, stretch, z);
    Compared(x, half, stretch, z);
    Compared(y, -0.5, m, z);
    Compared(y, 0.5, m, z);
  }

  lemma Compared(y: real, c: real, m: real, x: real)
    requires m > 0.0 && x == y * m
    ensures x <= c * m <==> y <= c
    ensures x >= c * m <==> y >= c
  {
    var d := y - c;
    ProductSign(d, m);
    ProductSign(-d, m);
    Difference(y, c, m, x, d * m, -d * m);
  }

  lemma Difference(y: real, c: real, m: real, x: real, dm: real, cm: real)
    requires x == y * m && dm == (y - c) * m && cm == -(y - c) * m
    ensures dm == x - c * m && cm == -dm
  {
  }
}
