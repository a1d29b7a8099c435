/**
 disis_munger~'s recorder and grain voices, sample by sample: recording into the circular buffer with its ramps,
 starting a grain in a free voice, and playing every voice.
 */
module Munger {
  import opened Samples
  import opened RecordRing
  import opened Division
  import opened GrainClearance

  const RECORD_RAMP: int := 1000
  const RECORD_RAMP_INVERSE: real := 0.001

  /** Recording on or off, the direction of a ramp, and its value. */
  datatype Recorder = Recorder(on: bool, ramping: int, value: int)

  /** What a sample is multiplied by when it is recorded. */
  function Level(r: Recorder): real {
    if r.ramping == 0 then 1.0 else RECORD_RAMP_INVERSE * r.value as real
  }

  /** What is recorded of a sample. */
  function Recorded(sample: real, r: Recorder): (v: real)
    ensures v == sample * Level(r)
  {
    if r.ramping == 0 then sample else sample * RECORD_RAMP_INVERSE * r.value as real
  }

  function AfterSample(r: Recorder): Recorder {
    if !r.on || r.ramping == 0 then r
    else
      var v := r.value + r.ramping;
      Recorder(v > 0, if v <= 0 || v >= RECORD_RAMP then 0 else r.ramping, v)
  }

  function AfterSamples(r: Recorder, n: nat): Recorder {
    if n == 0 then r else AfterSample(AfterSamples(r, n - 1))
  }

  function TurnedOff(r: Recorder): Recorder { Recorder(r.on, -1, RECORD_RAMP) }
  function TurnedOn(r: Recorder): Recorder { Recorder(true, 1, 0) }

  /** Recording that is turned off fades out over a thousand samples, each a thousandth quieter, and then stops. */
  lemma {:induction false} FadeOut(r: Recorder, n: nat)
    requires r.on && n <= RECORD_RAMP
    ensures var s := AfterSamples(TurnedOff(r), n);
      if n < RECORD_RAMP then s.on && Level(s) == 1.0 - n as real / 1000.0 else !s.on
    ensures var s := AfterSamples(TurnedOff(r), n); s.value == RECORD_RAMP - n && (n < RECORD_RAMP ==> s.ramping == -1)
  {
    if n > 0 {
      FadeOut(r, n - 1);
    }
  }

  /** Recording that is turned on fades in from silence over a thousand samples, and stays on. */
  lemma {:induction false} FadeIn(r: Recorder, n: nat)
    ensures var s := AfterSamples(TurnedOn(r), n);
      s.on && Level(s) == if n < RECORD_RAMP then n as real / 1000.0 else 1.0
    ensures var s := AfterSamples(TurnedOn(r), n);
      if n < RECORD_RAMP then s.ramping == 1 && s.value == n else s.ramping == 0
  {
    if n > 0 {
      FadeIn(r, n - 1);
    }
  }

  // ---- Voices ----

  datatype Voice = Voice(on: bool, current: real, grain: Grain, done: int, ramp: real, gain: real)

  /** After a sample: the position moves by the grain's speed, and the grain ends with its last sample. */
  function Advanced(v: Voice): Voice {
    var done := if v.done >= v.grain.size then v.done else v.done + 1;
    v.(on := done < v.grain.size, done := done,
       current := v.current + (if v.grain.forward then v.grain.speed else -v.grain.speed))
  }

  /** A voice that is on plays; one that is off stays as it is. */
  function Aged(v: Voice): Voice {
    if v.on then Advanced(v) else v
  }

  function AgedBy(v: Voice, n: nat): Voice {
    if n == 0 then v else Aged(AgedBy(v, n - 1))
  }

  /** How far a grain is read on in n samples. */
  function Moved(n: nat, g: Grain): real {
    n as real * (if g.forward then g.speed else -g.speed)
  }

  /**
   The life of a grain: it sounds for exactly its size in samples, or one, each a step of its speed after the one
   before.
   */
  lemma {:induction false} GrainLife(v: Voice, n: nat)
    requires v.on && v.done == 0
    ensures AgedBy(v, n).on <==> n < Reads(v.grain.size)
    ensures n < Reads(v.grain.size) ==>
      AgedBy(v, n).done == n && AgedBy(v, n).current == v.current + Moved(n, v.grain)
    ensures var w := AgedBy(v, n); w.grain == v.grain && w.ramp == v.ramp && w.gain == v.gain
  {
    if n > 0 {
      GrainLife(v, n - 1);
      hide Moved;
      MovedNext(n, v.grain);
    }
  }

  /** The voice has played n samples since, undisturbed, unless its grain is over by then. */
  ghost predicate PlaysOn(was: Voice, now: Voice, n: nat) {
    was.on && was.done == 0 && n <= Reads(was.grain.size) ==> now == AgedBy(was, n)
  }

  /** A grain under way is not disturbed, as only voices that are off are started anew. */
  lemma PlaysOnNext(was: Voice, now: Voice, played: Voice, n: nat)
    requires PlaysOn(was, now, n) && (now.on ==> played == now)
    ensures PlaysOn(was, Aged(played), n + 1)
    ensures was.on && was.done == 0 && n < Reads(was.grain.size) ==> played == now && now.on
  {
    if was.on && was.done == 0 && n < Reads(was.grain.size) {
      GrainLife(was, n);
    }
  }

  lemma PlaysOnStart(v: Voice)
    ensures PlaysOn(v, v, 0)
  {
  }

  /**
   A voice n samples after it had a grain to begin with: the grain's own state then, and on until its last sample.
   */
  ghost predicate LivesOn(was: Voice, now: Voice, n: nat) {
    was.on && was.done == 0 && n <= Reads(was.grain.size) ==>
      && now.grain == was.grain && now.ramp == was.ramp && now.gain == was.gain
      && (now.on <==> n < Reads(was.grain.size))
      && (now.on ==> now.done == n && now.current == was.current + Moved(n, was.grain))
  }

  lemma PlaysOnLives(was: Voice, now: Voice, n: nat)
    requires PlaysOn(was, now, n)
    ensures LivesOn(was, now, n)
  {
    if was.on && was.done == 0 {
      GrainLife(was, n);
    }
  }

  /** What was recorded up to sample n of a run, at full level. */
  ghost function HistoryAfter(history: seq<real>, samples: seq<real>, recording: bool, n: nat): seq<real>
    requires n <= |samples|
  {
    if recording then history + samples[..n] else history
  }

  /** Sample n of the grain that a voice began with: the history at the grain's lag then, shaped. */
  ghost predicate GrainHeard(was: Voice, offset: real, recording: bool, history: seq<real>, length: nat, n: nat,
    sample: real) {
    n < Reads(was.grain.size) ==> HeardWell(AgedBy(was, n), offset, recording, history, length, sample)
  }

  /** Every sample so far of the grains that the voices in `begun` began with. */
  ghost predicate GrainsHeard(was: seq<Voice>, offsets: seq<real>, begun: set<int>, recording: bool,
    history: seq<real>, samples: seq<real>, length: nat, heard: seq<seq<real>>)
    requires |was| == |offsets| && forall k :: k in begun ==> 0 <= k < |was|
  {
    && |heard| <= |samples|
    && (forall i :: 0 <= i < |heard| ==> |heard[i]| == |was|)
    && forall i, k :: 0 <= i < |heard| && k in begun ==>
      GrainHeard(was[k], offsets[k], recording, HistoryAfter(history, samples, recording, i + 1), length, i,
        heard[i][k])
  }

  lemma NothingHeard(was: seq<Voice>, offsets: seq<real>, begun: set<int>, recording: bool, history: seq<real>,
    samples: seq<real>, length: nat)
    requires |was| == |offsets| && forall k :: k in begun ==> 0 <= k < |was|
    ensures GrainsHeard(was, offsets, begun, recording, history, samples, length, [])
  {
  }

  lemma GrainsHeardNext(was: seq<Voice>, offsets: seq<real>, begun: set<int>, recording: bool, history: seq<real>,
    samples: seq<real>, length: nat, heard: seq<seq<real>>, parts: seq<real>)
    requires |was| == |offsets| == |parts| && |heard| < |samples| && forall k :: k in begun ==> 0 <= k < |was|
    requires GrainsHeard(was, offsets, begun, recording, history, samples, length, heard)
    requires forall k :: k in begun ==> GrainHeard(was[k], offsets[k], recording,
      HistoryAfter(history, samples, recording, |heard| + 1), length, |heard|, parts[k])
    ensures GrainsHeard(was, offsets, begun, recording, history, samples, length, heard + [parts])
  {
    hide GrainHeard, HistoryAfter;
  }

  lemma GrainHeardAt(was: Voice, now: Voice, offset: real, recording: bool, history: seq<real>, length: nat, n: nat,
    sample: real)
    requires was.on && was.done == 0 && PlaysOn(was, now, n)
    requires n < Reads(was.grain.size) ==> HeardWell(now, offset, recording, history, length, sample)
    ensures GrainHeard(was, offset, recording, history, length, n, sample)
  {
  }

  lemma HistoryNow(history: seq<real>, samples: seq<real>, recording: bool)
    ensures HistoryAfter(history, samples, recording, 0) == history
  {
  }

  lemma RecordedAtFullLevel(sample: real, r: Recorder)
    requires r.ramping == 0
    ensures Recorded(sample, r) == sample && AfterSample(r) == r
  {
  }

  lemma HistoryNext(history: seq<real>, samples: seq<real>, recording: bool, n: nat)
    requires n < |samples|
    ensures HistoryAfter(history, samples, recording, n + 1)
      == HistoryAfter(history, samples, recording, n) + if recording then [samples[n]] else []
  {
    assert samples[..n + 1] == samples[..n] + [samples[n]];
  }

  lemma MovedNext(n: nat, g: Grain)
    requires n > 0
    ensures Moved(n, g) == Moved(n - 1, g) + (if g.forward then g.speed else -g.speed)
    ensures Moved(0, g) == 0.0
  {
  }

  /** The length of a grain's ramps: at most half the grain. */
  function RampOf(size: int, rampLength: real): (ramp: real)
    ensures ramp > 0.0
  {
    var ramp := if size as real < 2.0 * rampLength then 0.5 * size as real else rampLength;
    if ramp <= 0.0 then 1.0 else ramp
  }

  /** How loud a grain is after `done` of its samples, between its ramps and on them. */
  function Loudness(done: int, size: int, ramp: real): real
    requires ramp > 0.0
  {
    if done as real < ramp then OnRamp(done as real, ramp)
    else if (size - done) as real < ramp then OnRamp((size - done) as real, ramp)
    else 1.0
  }

  function OnRamp(x: real, ramp: real): real
    requires ramp > 0.0
  {
    x * (1.0 / ramp)
  }

  /**
   A grain starts silent, is never louder than full level, and fades out as it faded in. Its ramps take the length
   that is set, or half the grain where that is less.
   */
  lemma LoudnessShape(done: int, size: int, rampLength: real)
    requires 0 <= done <= size && 1 <= size && rampLength > 0.0
    ensures var ramp := RampOf(size, rampLength);
      && 2.0 * ramp <= size as real && ramp <= rampLength && (2.0 * ramp == size as real || ramp == rampLength)
      && Loudness(0, size, ramp) == 0.0
      && 0.0 <= Loudness(done, size, ramp) <= 1.0
      && Loudness(size - done, size, ramp) == Loudness(done, size, ramp)
  {
    var ramp := RampOf(size, rampLength);
    assert 2.0 * ramp <= size as real;
    hide OnRamp;
    RampLevel(0.0, ramp);
    RampLevel(done as real, ramp);
    RampLevel((size - done) as real, ramp);
  }

  lemma RampLevel(x: real, ramp: real)
    requires x >= 0.0 && ramp > 0.0
    ensures OnRamp(x, ramp) >= 0.0 && (x == 0.0 ==> OnRamp(x, ramp) == 0.0)
    ensures x < ramp ==> OnRamp(x, ramp) < 1.0
  {
    var over := 1.0 / ramp;
    assert over * ramp == 1.0;
    ProductSign(over, ramp);
    NonNegativeProduct(x, over);
    if x < ramp {
      Below(x, ramp, over);
      assert OnRamp(x, ramp) == x * over;
    }
  }

  lemma Below(x: real, y: real, over: real)
    requires x < y && over > 0.0 && over * y == 1.0
    ensures x * over < 1.0
  {
    Split(y - x, x, y, over, (y - x) * over, x * over);
    PositiveProduct(y - x, over);
  }

  lemma Split(d: real, x: real, y: real, over: real, dover: real, xover: real)
    requires d == y - x && dover == d * over && xover == x * over && over * y == 1.0
    ensures dover + xover == 1.0
  {
  }

  /** What a voice makes of the sample it reads. */
  function Shaped(v: Voice, x: real): real
    requires v.ramp > 0.0
  {
    x * Loudness(v.done, v.grain.size, v.ramp) * v.gain
  }

  /**
   A sample of a grain: at the voice's gain between the ramps, and by n / ramp of that at the grain's n-th sample and
   n samples before its end.
   */
  lemma ShapedLevel(v: Voice, x: real)
    requires v.ramp > 0.0
    ensures var head := v.done as real; var tail := (v.grain.size - v.done) as real;
      && (head < v.ramp ==> Shaped(v, x) * v.ramp == x * head * v.gain)
      && (head >= v.ramp && tail < v.ramp ==> Shaped(v, x) * v.ramp == x * tail * v.gain)
      && (head >= v.ramp && tail >= v.ramp ==> Shaped(v, x) == x * v.gain)
  {
    var level := Loudness(v.done, v.grain.size, v.ramp);
    var over := 1.0 / v.ramp;
    assert over * v.ramp == 1.0;
    var n := if v.done as real < v.ramp then v.done as real else (v.grain.size - v.done) as real;
    OnRampScaled(x, n, v.gain, v.ramp, over);
  }

  lemma OnRampScaled(x: real, n: real, gain: real, ramp: real, over: real)
    requires over * ramp == 1.0
    ensures x * (n * over) * gain * ramp == x * n * gain
  {
    assert x * (n * over) * gain * ramp == x * n * gain * (over * ramp);
  }

  /** How far behind the head a voice reads its next sample. */
  function VoiceLag(v: Voice, offset: real, recording: bool): real {
    Lag(offset, Rate(recording, v.grain), v.done)
  }

  ghost predicate Congruent(x: real, y: real, length: nat) {
    exists k: int :: x == y + Turns(length, k)
  }

  function Turns(length: nat, k: int): real { (length * k) as real }

  /** With the head at time t, the voice is where its grain should be, and its whole grain is clear of the head. */
  ghost predicate InPlace(v: Voice, t: int, offset: real, recording: bool, length: nat) {
    && Congruent(v.current, t as real - VoiceLag(v, offset, recording), length)
    && Clear(offset, Rate(recording, v.grain), v.grain.size, length)
    && 0 <= v.done < Reads(v.grain.size)
  }

  /** Playing one sample keeps a voice in place, for the head's next time. */
  lemma AdvancedInPlace(v: Voice, t: int, offset: real, recording: bool, length: nat)
    requires InPlace(v, t, offset, recording, length) && Advanced(v).on
    ensures InPlace(Advanced(v), t + (if recording then 1 else 0), offset, recording, length)
  {
    var k :| v.current == t as real - VoiceLag(v, offset, recording) + Turns(length, k);
    var rate := Rate(recording, v.grain);
    assert Times((v.done + 1) as real, rate) == Times(v.done as real, rate) + rate;
    assert Advanced(v).current == (t + (if recording then 1 else 0)) as real - VoiceLag(Advanced(v), offset,
      recording) + Turns(length, k);
  }

  /** A voice in place hears the history, from what the buffer still holds. */
  lemma InPlaceHears(v: Voice, buf: seq<real>, history: seq<real>, offset: real, recording: bool)
    requires Ring(buf, history) && InPlace(v, |history|, offset, recording, |buf|)
    ensures var lag := VoiceLag(v, offset, recording);
      0.0 <= lag <= |buf| as real && Read(buf, v.current) == Heard(history, |buf|, lag)
  {
    var lag := VoiceLag(v, offset, recording);
    var k :| v.current == |history| as real - lag + Turns(|buf|, k);
    ReadIsHeard(buf, history, lag, k);
  }

  /** The draws that a new grain makes, and the one for the time to the next grain. */
  datatype Draw = Draw(speed: real, size: real, forward: bool, start: real, gain: real, gimme: real)

  function GrainOf(d: Draw, s: Settings): Grain
    requires s.Valid()
  {
    var speed := Speed(d.speed);
    Grain(speed, d.forward, Trunc(Size(d.size, speed, s.minsize, s.maxsize)))
  }

  /** A new grain goes the way and at the speed drawn, and has the whole samples of the size by rule. */
  lemma GrainAsDrawn(d: Draw, s: Settings, size: real)
    requires s.Valid() && SizeRule(size, d.size, GrainOf(d, s).speed, s.minsize, s.maxsize)
    ensures var g := GrainOf(d, s);
      && g.forward == d.forward
      && g.speed == (if d.speed < 0.001 then 0.001 else d.speed)
      && (size >= 0.0 ==> g.size as real <= size < (g.size + 1) as real)
  {
    var speed := GrainOf(d, s).speed;
    SizeFollowsRule(d.size, speed, s.minsize, s.maxsize);
    SizeRuleDecides(size, Size(d.size, speed, s.minsize, s.maxsize), d.size, speed, s.minsize, s.maxsize);
  }

  /** The whole grain of a voice that started so far behind the head keeps clear of it. */
  ghost predicate StaysClear(v: Voice, offset: real, recording: bool, length: nat) {
    Clear(offset, Rate(recording, v.grain), v.grain.size, length)
  }

  /** With settings that leave room, every new grain keeps clear. */
  lemma NewGrainClear(d: Draw, s: Settings, recording: bool, length: nat)
    requires s.Valid() && 0.0 <= d.start <= 1.0
    requires SettingHasRoom(recording, s, Speed(d.speed), d.forward, 1.0, length)
    ensures var g := GrainOf(d, s);
      Clear(Offset(recording, s.position, s.maxsize, g, d.start), Rate(recording, g), g.size, length)
  {
    hide SettingHasRoom;
    ClearForEveryDraw(recording, s, Speed(d.speed), d.forward, 1.0, length);
    assert DrawClear(recording, s, Speed(d.speed), d.forward, length, d.size, d.start);
  }

  // ---- When grains begin ----

  /** The counter after a sample at which no grain begins: it is counted up twice. */
  function NextTime(time: int, gimme: real): int {
    if time >= Trunc(gimme) then 1 else time + 2
  }

  /** The counter n samples after a grain began, when none has begun since. */
  function TimeAfter(n: nat): int { 1 + 2 * n }

  function TimeRun(time: int, gimme: real, n: nat): int {
    if n == 0 then time else NextTime(TimeRun(time, gimme, n - 1), gimme)
  }

  lemma {:induction false} TimeCounts(gimme: real, n: nat)
    requires forall k :: 0 <= k < n ==> TimeAfter(k) < Trunc(gimme)
    ensures TimeRun(1, gimme, n) == TimeAfter(n)
  {
    if n > 0 {
      TimeCounts(gimme, n - 1);
      assert TimeAfter(n - 1) < Trunc(gimme);
    }
  }

  /**
   Grains come about twice as often as asked: with a distance of g >= 0 samples set, the next grain begins exactly g /
   2 + 1 samples after the last, because the counter is counted up twice in a sample.
   */
  lemma GrainDistance(gimme: real, n: nat)
    ensures var g := Trunc(gimme); var q := if g <= 0 then 0 else g / 2;
      && (n < q ==> TimeRun(1, gimme, n) < g)
      && TimeRun(1, gimme, q) >= g
  {
    var g := Trunc(gimme);
    var q := if g <= 0 then 0 else g / 2;
    TimeCounts(gimme, q);
    if n < q {
      TimeCounts(gimme, n);
    }
  }

  /** Two times whose samples share a place in the buffer. */
  predicate SameSlot(a: int, b: int, length: nat) {
    length > 0 && a % length == b % length
  }

  lemma Wrapped(n: nat, c: nat, length: nat) returns (k: int)
    requires SameSlot(c, n, length)
    ensures c as real == n as real + Turns(length, k)
  {
    k := Apart(c, n, length);
  }

  lemma NextSlot(c: nat, n: nat, length: nat)
    requires SameSlot(c, n, length)
    ensures SameSlot(c + 1, n + 1, length)
  {
    var k := Apart(c, n, length);
    SameRemainder(n + 1, length, k);
  }

  lemma WrapSlot(n: nat, length: nat)
    requires SameSlot(length, n, length)
    ensures SameSlot(0, n, length)
  {
    WrappedRemainder(length, length);
    SmallRemainder(0, length);
  }

  lemma SlotIndex(c: nat, n: nat, length: nat)
    requires c < length && SameSlot(c, n, length)
    ensures n % length == c
  {
    Neighbour(c, length);
  }

  function Total(s: seq<real>): real {
    if s == [] then 0.0 else Total(s[..|s| - 1]) + s[|s| - 1]
  }

  lemma TotalNext(s: seq<real>, x: real)
    ensures Total(s + [x]) == Total(s) + x
  {
    assert (s + [x])[..|s|] == s;
  }

  /** A voice that plays shapes the history at its lag, from what the buffer holds; one that is off adds nothing. */
  ghost predicate HeardWell(v: Voice, offset: real, recording: bool, history: seq<real>, length: nat, sample: real) {
    if v.on then
      var lag := VoiceLag(v, offset, recording);
      v.ramp > 0.0 && 0.0 <= lag <= length as real && sample == Shaped(v, Heard(history, length, lag))
    else sample == 0.0
  }

  class Granulator {
    const buf: array<real>
    var recordCurrent: nat
    var recorder: Recorder
    const voices: array<Voice>
    var settings: Settings
    var time: int
    var gimme: real

    /** All that was recorded, and how far behind the head each voice started. */
    ghost var history: seq<real>
    ghost var offsets: seq<real>

    ghost predicate Valid()
      reads this, buf, voices
    {
      && buf.Length > 0 && Ring(buf[..], history)
      && recordCurrent <= buf.Length && SameSlot(recordCurrent, |history|, buf.Length)
      && settings.Valid() && settings.voices <= voices.Length
      && |offsets| == voices.Length
      && forall i :: 0 <= i < voices.Length ==> voices[i].ramp > 0.0
    }

    /** Voice i is off, or its grain is in place and will stay so while recording stays as it is. */
    ghost predicate Tracked(i: int)
      requires 0 <= i < voices.Length && |offsets| == voices.Length
      reads this, voices
    {
      voices[i].on ==> InPlace(voices[i], |history| + (if recorder.on then 1 else 0), offsets[i], recorder.on,
        buf.Length)
    }

    constructor (length: nat, count: nat, settings: Settings)
      requires length > 0 && settings.Valid() && settings.voices <= count
      ensures Valid() && history == [] && recorder == Recorder(true, 0, 0)
      ensures fresh(buf) && fresh(voices) && buf.Length == length && voices.Length == count && this.settings == settings
      ensures time == 0 && gimme == 0.0 && forall i :: 0 <= i < count ==> Tracked(i)
    {
      buf := new real[length](i => 0.0);
      voices := new Voice[count](i => Voice(false, 0.0, Grain(1.0, true, 1000), 0, 1.0, 1.0));
      recordCurrent := 0;
      recorder := Recorder(true, 0, 0);
      this.settings := settings;
      time, gimme := 0, 0.0;
      history := [];
      offsets := seq(count, i => 0.0);
      new;
      RingStart(buf[..]);
    }

    /** The record message. */
    method Record(on: bool)
      requires Valid()
      modifies this`recorder
      ensures Valid() && recorder == if on then TurnedOn(old(recorder)) else TurnedOff(old(recorder))
    {
      if !on {
        recorder := recorder.(value := RECORD_RAMP, ramping := -1);
      } else {
        recorder := Recorder(true, 1, 0);
      }
    }

    /** The clear message silences what was recorded; the head stays. */
    method Clear()
      requires Valid()
      modifies this`history, buf
      ensures Valid() && history == Zeros(|old(history)|)
    {
      for i := 0 to buf.Length
        invariant history == old(history) && forall k :: 0 <= k < i ==> buf[k] == 0.0
      {
        buf[i] := 0.0;
      }
      RingCleared(buf[..], |history|);
      history := Zeros(|history|);
    }

    /** Put a sample at the head, whose index may have come to the end. */
    method Put(v: real)
      requires Valid() && recordCurrent < buf.Length
      modifies this`recordCurrent, this`history, buf
      ensures Valid() && history == old(history) + [v]
    {
      SlotIndex(recordCurrent, |history|, buf.Length);
      RingNext(buf[..], history, v);
      NextSlot(recordCurrent, |history|, buf.Length);
      hide Ring, Settings.Valid, SameSlot;
      ghost var b := buf[..];
      buf[recordCurrent] := v;
      assert buf[..] == b[recordCurrent := v];
      history := history + [v];
      recordCurrent := recordCurrent + 1;
    }

    /** Record one sample, and move a ramp on. */
    method RecordSamp(sample: real)
      requires Valid()
      modifies this`recordCurrent, this`recorder, this`history, buf
      ensures Valid() && recorder == AfterSample(old(recorder))
      ensures history == if old(recorder).on then old(history) + [Recorded(sample, old(recorder))] else old(history)
    {
      hide Ring, Settings.Valid, SameSlot;
      if recordCurrent >= buf.Length {
        WrapSlot(|history|, buf.Length);
        recordCurrent := 0;
      }
      if recorder.on {
        if recorder.ramping == 0 {
          Put(sample);
        } else {
          var v := sample * RECORD_RAMP_INVERSE * recorder.value as real;
          assert v == Recorded(sample, recorder);
          Put(v);
          var value := recorder.value + recorder.ramping;
          recorder := recorder.(value := value);
          if value <= 0 {
            recorder := recorder.(ramping := 0, on := false);
          }
          if value >= RECORD_RAMP {
            recorder := recorder.(ramping := 0);
          }
        }
      }
    }

    /** The first voice that is off, or -1. */
    method FindVoice() returns (found: int)
      requires Valid()
      ensures -1 <= found < settings.voices
      ensures found >= 0 ==> !voices[found].on && forall k :: 0 <= k < found ==> voices[k].on
      ensures found < 0 ==> forall k :: 0 <= k < settings.voices ==> voices[k].on
    {
      found := -1;
      var i := 0;
      while found < 0 && i < settings.voices
        invariant 0 <= i <= settings.voices
        invariant found < 0 ==> found == -1 && forall k :: 0 <= k < i ==> voices[k].on
        invariant found >= 0 ==> found < settings.voices && !voices[found].on && forall k :: 0 <= k < found ==>
          voices[k].on
        decreases settings.voices - i, if found < 0 then 1 else 0
      {
        if !voices[i].on {
          found := i;
        }
        i := i + 1;
      }
    }

    /** Start a grain: its size, and its start position by direction, speed, position and recording. */
    method NewSetup(i: nat, d: Draw)
      requires Valid() && i < voices.Length && 0.0 <= d.start <= 1.0
      modifies voices, this`offsets
      ensures Valid() && voices[..] == old(voices[..])[i := voices[i]] && offsets == old(offsets)[i := offsets[i]]
      ensures voices[i].on && voices[i].grain == GrainOf(d, settings) && voices[i].done == 0
      ensures voices[i].ramp == RampOf(voices[i].grain.size, settings.rampLength) && voices[i].gain == d.gain
      ensures offsets[i] == Offset(recorder.on, settings.position, settings.maxsize, GrainOf(d, settings), d.start)
      ensures Congruent(voices[i].current, |history| as real - offsets[i], buf.Length)
    {
      var speed := d.speed;
      if speed < MIN_SPEED {
        speed := MIN_SPEED;
      }
      var newsize := NewSize(d.size, speed, settings.minsize, settings.maxsize);
      var g := Grain(speed, d.forward, Trunc(newsize));
      var offset := StartOffset(recorder.on, settings.position, settings.maxsize, g, d.start);
      var ramp := settings.rampLength;
      if g.size as real < 2.0 * settings.rampLength {
        ramp := 0.5 * g.size as real;
      }
      if ramp <= 0.0 {
        ramp := 1.0;
      }
      voices[i] := Voice(true, recordCurrent as real - offset, g, 0, ramp, d.gain);
      offsets := offsets[i := offset];
      ghost var k := Wrapped(|history|, recordCurrent, buf.Length);
      hide SameSlot, Ring, Turns, Settings.Valid;
      assert voices[i].current == |history| as real - offset + Turns(buf.Length, k);
    }

    /** A grain that stays clear keeps its voice tracked from its first sample on. */
    lemma StartedInPlace(i: nat)
      requires Valid() && i < voices.Length && voices[i].done == 0
      requires StaysClear(voices[i], offsets[i], recorder.on, buf.Length)
      requires Congruent(voices[i].current, |history| as real - offsets[i], buf.Length)
      ensures InPlace(voices[i], |history|, offsets[i], recorder.on, buf.Length)
    {
      assert Times(0.0, Rate(recorder.on, voices[i].grain)) == 0.0;
    }

    /** Play one sample of a voice that is on. */
    method PlayVoice(i: nat) returns (sample: real)
      requires Valid() && i < voices.Length && voices[i].on
      modifies voices
      ensures Valid() && sample == Shaped(old(voices[i]), Read(buf[..], old(voices[i].current)))
      ensures voices[..] == old(voices[..])[i := Advanced(old(voices[i]))]
    {
      hide Read;
      var v := voices[i];
      sample := GetSamp(buf, v.current);
      sample := Envelope(v, sample);
      sample := sample * v.gain;
      v := v.(current := v.current + (if v.grain.forward then v.grain.speed else -v.grain.speed));
      if v.done >= v.grain.size {
        v := v.(on := false);
      } else {
        v := v.(done := v.done + 1);
        if v.done >= v.grain.size {
          v := v.(on := false);
        }
      }
      voices[i] := v;
    }

    /** Play every voice and add up what they give. */
    method PlayVoices() returns (mix: real, ghost heard: seq<real>)
      requires Valid()
      modifies voices
      ensures Valid() && |heard| == voices.Length && mix == Total(heard)
      ensures forall k :: 0 <= k < voices.Length ==> var v := old(voices[k]);
        && voices[k] == Aged(v)
        && heard[k] == (if v.on then Shaped(v, Read(buf[..], v.current)) else 0.0)
    {
      hide Read, Ring, Advanced, Shaped;
      mix := 0.0;
      heard := [];
      for i := 0 to voices.Length
        invariant Valid() && |heard| == i && mix == Total(heard)
        invariant forall k :: 0 <= k < i ==> var v := old(voices[k]);
          && voices[k] == Aged(v)
          && heard[k] == (if v.on then Shaped(v, Read(buf[..], v.current)) else 0.0)
        invariant forall k :: i <= k < voices.Length ==> voices[k] == old(voices[k])
      {
        var sample := 0.0;
        if voices[i].on {
          sample := PlayVoice(i);
        }
        TotalNext(heard, sample);
        mix := mix + sample;
        heard := heard + [sample];
      }
    }

    /** The head has moved on by a sample if recording went on. */
    lemma VoicePlayed(v: Voice, offset: real)
      requires Valid() && v.ramp > 0.0
      requires v.on ==> InPlace(v, |history|, offset, recorder.on, buf.Length)
      ensures HeardWell(v, offset, recorder.on, history, buf.Length, if v.on then Shaped(v, Read(buf[..], v.current))
        else 0.0)
      ensures Aged(v).on ==>
        InPlace(Aged(v), |history| + (if recorder.on then 1 else 0), offset, recorder.on, buf.Length)
    {
      if v.on {
        InPlaceHears(v, buf[..], history, offset, recorder.on);
        if Advanced(v).on {
          AdvancedInPlace(v, |history|, offset, recorder.on, buf.Length);
        }
      }
    }

    /** Start a grain in the first voice that is off, if there is one. */
    method BeginGrain(d: Draw) returns (started: int)
      requires Valid() && 0.0 <= d.start <= 1.0
      modifies this`offsets, voices
      ensures Valid() && -1 <= started < settings.voices
      ensures started < 0 <==> forall k :: 0 <= k < settings.voices ==> old(voices[k]).on
      ensures forall k :: 0 <= k < voices.Length && k != started ==>
        voices[k] == old(voices[k]) && offsets[k] == old(offsets[k])
      ensures started >= 0 ==> Starts(voices[started], offsets[started], d) && !old(voices[started]).on
      ensures started >= 0 && StaysClear(voices[started], offsets[started], recorder.on, buf.Length) ==>
        InPlace(voices[started], |history|, offsets[started], recorder.on, buf.Length)
    {
      hide Ring, InPlace, Settings.Valid, SameSlot, StaysClear, GrainOf, Congruent, Offset, RampOf;
      started := FindVoice();
      if started >= 0 {
        NewSetup(started, d);
        if StaysClear(voices[started], offsets[started], recorder.on, buf.Length) {
          StartedInPlace(started);
        }
      }
    }

    /** A voice as a new grain leaves it. */
    ghost predicate Starts(v: Voice, offset: real, d: Draw)
      requires settings.Valid()
      reads this
    {
      && v.on && v.grain == GrainOf(d, settings) && v.done == 0
      && v.ramp == RampOf(v.grain.size, settings.rampLength) && v.gain == d.gain
      && offset == Offset(recorder.on, settings.position, settings.maxsize, v.grain, d.start)
    }

    /** Start a grain when it is time, and count the sample. */
    method Schedule(d: Draw) returns (due: bool, started: int)
      requires Valid() && 0.0 <= d.start <= 1.0
      modifies this`offsets, this`time, this`gimme, voices
      ensures Valid() && -1 <= started < settings.voices
      ensures due == (old(time) >= Trunc(old(gimme)))
      ensures time == NextTime(old(time), old(gimme)) && gimme == if due then d.gimme else old(gimme)
      ensures started < 0 <==> !due || forall k :: 0 <= k < settings.voices ==> old(voices[k]).on
      ensures forall k :: 0 <= k < voices.Length && k != started ==>
        voices[k] == old(voices[k]) && offsets[k] == old(offsets[k])
      ensures started >= 0 ==> Starts(voices[started], offsets[started], d) && !old(voices[started]).on
      ensures started >= 0 && StaysClear(voices[started], offsets[started], recorder.on, buf.Length) ==>
        InPlace(voices[started], |history|, offsets[started], recorder.on, buf.Length)
    {
      hide Ring, InPlace, Settings.Valid, SameSlot, StaysClear, GrainOf, Offset, RampOf;
      started := -1;
      due := time >= Trunc(gimme);
      time := time + 1;
      if due {
        time := 0;
        started := BeginGrain(d);
        gimme := d.gimme;
      }
      time := time + 1;
    }

    /**
     One sample of the object: record, start a grain if it is time, play every voice. While recording stays as it is,
     every tracked voice hears the history at its lag and stays tracked; so does a new grain that stays clear.
     */
    method Tick(sample: real, d: Draw)
      returns (mix: real, ghost heard: seq<real>, ghost played: seq<Voice>, ghost due: bool, started: int)
      requires Valid() && 0.0 <= d.start <= 1.0
      modifies this`recordCurrent, this`recorder, this`history, this`offsets, this`time, this`gimme, buf, voices
      ensures Valid() && recorder == AfterSample(old(recorder))
      ensures history == if old(recorder).on then old(history) + [Recorded(sample, old(recorder))] else old(history)
      ensures due == (old(time) >= Trunc(old(gimme)))
      ensures time == NextTime(old(time), old(gimme)) && gimme == if due then d.gimme else old(gimme)
      ensures -1 <= started < settings.voices
      ensures started < 0 <==> !due || forall k :: 0 <= k < settings.voices ==> old(voices[k]).on
      ensures mix == Total(heard) && |heard| == |played| == voices.Length
      ensures forall k :: 0 <= k < voices.Length && k != started ==>
        played[k] == old(voices[k]) && offsets[k] == old(offsets[k])
      ensures started >= 0 ==> Starts(played[started], offsets[started], d)
      ensures forall k :: 0 <= k < voices.Length && k != started ==>
        recorder.on == old(recorder.on) && old(Tracked(k)) ==>
        Tracked(k) && HeardWell(played[k], offsets[k], recorder.on, history, buf.Length, heard[k])
      ensures started >= 0 && StaysClear(played[started], offsets[started], recorder.on, buf.Length) ==>
        Tracked(started)
        && HeardWell(played[started], offsets[started], recorder.on, history, buf.Length, heard[started])
      ensures forall k :: 0 <= k < voices.Length ==> voices[k] == Aged(played[k])
      ensures started >= 0 ==> !old(voices[started]).on
    {
      hide Ring, Read, InPlace, StaysClear, HeardWell, Aged, Settings.Valid, SameSlot, GrainOf, Heard, Shaped,
        Offset, RampOf;
      ghost var tracked := set k | 0 <= k < voices.Length && Tracked(k);
      RecordSamp(sample);
      due, started := Schedule(d);
      played := voices[..];
      ghost var placed := set k | 0 <= k < voices.Length && (if k == started
        then StaysClear(played[k], offsets[k], recorder.on, buf.Length)
        else recorder.on == old(recorder.on) && k in tracked);
      assert forall k :: k in placed && played[k].on ==> InPlace(played[k], |history|, offsets[k], recorder.on,
        buf.Length);
      mix, heard := PlayVoices();
      forall k | k in placed
        ensures Tracked(k) && HeardWell(played[k], offsets[k], recorder.on, history, buf.Length, heard[k])
      {
        VoicePlayed(played[k], offsets[k]);
      }
    }

    /** The voices that have a grain to begin with, and are tracked. */
    ghost function Begun(): set<int>
      requires Valid()
      reads this, buf, voices
    {
      set k | 0 <= k < voices.Length && voices[k].on && voices[k].done == 0 && Tracked(k)
    }

    /**
     A run of the object. A voice that has a grain to begin with plays all its samples, whatever else begins, and ends
     with them; while recording is steady, each of them is the history at the lag of that sample, shaped.
     */
    method Run(samples: seq<real>, draws: seq<Draw>) returns (mixes: seq<real>, ghost heard: seq<seq<real>>)
      requires Valid() && |samples| == |draws| && forall i :: 0 <= i < |draws| ==> 0.0 <= draws[i].start <= 1.0
      modifies this`recordCurrent, this`recorder, this`history, this`offsets, this`time, this`gimme, buf, voices
      ensures Valid() && |mixes| == |heard| == |samples|
      ensures forall i :: 0 <= i < |mixes| ==> |heard[i]| == voices.Length && mixes[i] == Total(heard[i])
      ensures forall k :: 0 <= k < voices.Length ==> LivesOn(old(voices[k]), voices[k], |samples|)
      ensures old(recorder).ramping == 0 ==> recorder == old(recorder)
      ensures old(recorder).ramping == 0 ==>
        GrainsHeard(old(voices[..]), old(offsets), old(Begun()), recorder.on, old(history), samples, buf.Length, heard)
    {
      hide Ring, Settings.Valid, SameSlot, InPlace, Aged, HeardWell, GrainHeard, GrainsHeard, PlaysOn, LivesOn,
        Recorded, HistoryAfter;
      ghost var was, since, past := voices[..], offsets, history;
      ghost var begun := Begun();
      assert forall k :: k in begun ==> 0 <= k < |was| && was[k].on && was[k].done == 0;
      ghost var steady, recording := recorder.ramping == 0, recorder.on;
      mixes, heard := [], [];
      forall k | 0 <= k < voices.Length
        ensures PlaysOn(was[k], voices[k], 0)
      {
        PlaysOnStart(was[k]);
      }
      HistoryNow(past, samples, recording);
      NothingHeard(was, since, begun, recording, past, samples, buf.Length);
      for i := 0 to |samples|
        invariant Valid() && |mixes| == |heard| == i
        invariant forall j :: 0 <= j < i ==> |heard[j]| == |was| && mixes[j] == Total(heard[j])
        invariant forall k :: 0 <= k < |was| ==> PlaysOn(was[k], voices[k], i)
        invariant steady ==> recorder == old(recorder) && history == HistoryAfter(past, samples, recording, i)
        invariant steady ==> forall k :: k in begun && i <= Reads(was[k].grain.size) ==>
          Tracked(k) && offsets[k] == since[k]
        invariant steady ==> GrainsHeard(was, since, begun, recording, past, samples, buf.Length, heard)
      {
        ghost var before := voices[..];
        var mix;
        ghost var parts, played, due;
        var started;
        mix, parts, played, due, started := Tick(samples[i], draws[i]);
        forall k | 0 <= k < |was|
          ensures PlaysOn(was[k], voices[k], i + 1)
          ensures was[k].on && was[k].done == 0 && i < Reads(was[k].grain.size) ==>
            k != started && played[k] == before[k]
        {
          PlaysOnNext(was[k], before[k], played[k], i);
        }
        if steady {
          RecordedAtFullLevel(samples[i], recorder);
          HistoryNext(past, samples, recording, i);
          assert history == HistoryAfter(past, samples, recording, |heard| + 1);
          forall k | k in begun
            ensures GrainHeard(was[k], since[k], recording, history, buf.Length, i, parts[k])
          {
            GrainHeardAt(was[k], before[k], since[k], recording, history, buf.Length, i, parts[k]);
          }
          GrainsHeardNext(was, since, begun, recording, past, samples, buf.Length, heard, parts);
        }
        mixes, heard := mixes + [mix], heard + [parts];
      }
      forall k | 0 <= k < |was|
        ensures LivesOn(was[k], voices[k], |samples|)
      {
        PlaysOnLives(was[k], voices[k], |samples|);
      }
    }
  }

  /** The grain's ramps, as the code applies them to a sample. */
  method Envelope(v: Voice, x: real) returns (sample: real)
    requires v.ramp > 0.0
    ensures sample == x * Loudness(v.done, v.grain.size, v.ramp)
  {
    var done := v.done;
    var tail := v.grain.size - v.done;
    sample := x;
    if done as real < v.ramp {
      sample := sample * (done as real * (1.0 / v.ramp));
    } else if (tail as real) < v.ramp {
      sample := sample * (tail as real * (1.0 / v.ramp));
    }
  }

  /** Where a grain starts behind the head, case by case as the code has it. */
  method StartOffset(recording: bool, position: real, third: real, g: Grain, start: real) returns (offset: real)
    requires position == -1.0 || 0.0 <= position
    ensures offset == Offset(recording, position, third, g, start)
  {
    if position == -1.0 && recording {
      if g.forward {
        if g.speed > 1.0 {
          offset := third + start * third;
        } else {
          offset := start * third;
        }
      } else {
        offset := start * third;
      }
    } else if position >= 0.0 && recording {
      if g.forward {
        if g.speed > 1.0 {
          offset := g.size as real * g.speed + position * third;
        } else {
          offset := position * third;
        }
      } else {
        offset := position * third;
      }
    } else if position == -1.0 && !recording {
      if g.forward {
        offset := third + start * third;
      } else {
        offset := start * third;
      }
    } else {
      if g.forward {
        offset := third + position * third;
      } else {
        offset := position * third;
      }
    }
  }
}
