/**
 The attack-decay-sustain-release envelope of disis_munger~'s notes: its state machine, the range of its value over
 every run, and the exact length of a note that the granulator releases as soon as it sustains.
 */
module Envelope {
  import opened Samples

  datatype Stage = Attack | Decay | Sustain | Release | Idle

  datatype State = State(
    stage: Stage, value: real, target: real, attackRate: real, decayRate: real, releaseRate: real, releaseTime: real,
    sustainLevel: real, sampleRate: real)

  // ---- What the operations do ----

  function Ticked(e: State): State {
    match e.stage
    case Attack =>
      var v := e.value + e.attackRate;
      if v >= e.target then e.(value := e.target, target := e.sustainLevel, stage := Decay) else e.(value := v)
    case Decay =>
      var falling := e.value > e.sustainLevel;
      var v := if falling then e.value - e.decayRate else e.value + e.decayRate;
      var arrived := if falling then v <= e.sustainLevel else v >= e.sustainLevel;
      if arrived then e.(value := e.sustainLevel, stage := Sustain) else e.(value := v)
    case Release =>
      var v := e.value - e.releaseRate;
      if v <= 0.0 then e.(value := 0.0, stage := Idle) else e.(value := v)
    case _ => e
  }

  function KeyedOn(e: State): State { e.(target := if e.target <= 0.0 then 1.0 else e.target, stage := Attack) }

  /** A release time makes the release rate depend on the value that is released. */
  function KeyedOff(e: State): State
    requires e.sampleRate > 0.0
  {
    var f := e.(target := 0.0, stage := Release);
    if e.releaseTime > 0.0 then PositiveProduct(e.releaseTime,
      e.sampleRate); f.(releaseRate := e.value / (e.releaseTime * e.sampleRate)) else f
  }

  function WithTimes(e: State, attack: real, decay: real, level: real, release: real): State
    requires e.sampleRate > 0.0 && attack > 0.0 && decay > 0.0 && release > 0.0
  {
    PositiveProduct(attack, e.sampleRate);
    PositiveProduct(decay, e.sampleRate);
    PositiveProduct(release, e.sampleRate);
    e.(attackRate := 1.0 / (attack * e.sampleRate), sustainLevel := level,
       decayRate := (1.0 - level) / (decay * e.sampleRate),
       releaseRate := level / (release * e.sampleRate), releaseTime := release)
  }

  /** Head for a level, and stay there. */
  function WithTarget(e: State, target: real): State {
    e.(target := target, sustainLevel := target,
       stage := if e.value < target then Attack else if e.value > target then Decay else e.stage)
  }

  function WithValue(e: State, value: real): State {
    e.(stage := Sustain, target := value, value := value, sustainLevel := value)
  }

  // ---- The value stays in range ----

  datatype Event =
    | Tick | KeyOn | KeyOff
    | SetTimes(attack: real, decay: real, level: real, release: real)
    | SetTarget(target: real) | SetValue(value: real)
    | SetAttackRate(rate: real) | SetDecayRate(rate: real) | SetReleaseRate(rate: real)
    | SetAttackTime(time: real) | SetDecayTime(time: real) | SetReleaseTime(time: real)
    | SetAttackTarget(target: real) | SetSustainLevel(level: real) | SetSampleRate(newRate: real)

  predicate Unit(x: real) { 0.0 <= x <= 1.0 }

  /** What the class asks of its callers: positive times, non-negative rates, and levels between 0 and 1. */
  predicate Allowed(e: Event) {
    match e
    case SetTimes(a, d, s, r) => a > 0.0 && d > 0.0 && r > 0.0 && Unit(s)
    case SetTarget(t) => Unit(t)
    case SetValue(v) => Unit(v)
    case SetAttackRate(r) => r >= 0.0
    case SetDecayRate(r) => r >= 0.0
    case SetReleaseRate(r) => r >= 0.0
    case SetAttackTime(t) => t > 0.0
    case SetDecayTime(t) => t > 0.0
    case SetReleaseTime(t) => t > 0.0
    case SetAttackTarget(t) => Unit(t)
    case SetSustainLevel(l) => Unit(l)
    case SetSampleRate(r) => r > 0.0
    case _ => true
  }

  function After(e: State, event: Event): State
    requires e.sampleRate > 0.0 && Allowed(event)
  {
    match event
    case Tick => Ticked(e)
    case KeyOn => KeyedOn(e)
    case KeyOff => KeyedOff(e)
    case SetTimes(a, d, s, r) => WithTimes(e, a, d, s, r)
    case SetTarget(t) => WithTarget(e, t)
    case SetValue(v) => WithValue(e, v)
    case SetAttackRate(r) => e.(attackRate := r)
    case SetDecayRate(r) => e.(decayRate := r)
    case SetReleaseRate(r) => e.(releaseRate := r, releaseTime := -1.0)
    case SetAttackTime(t) => PositiveProduct(t, e.sampleRate); e.(attackRate := 1.0 / (t * e.sampleRate))
    case SetDecayTime(t) => PositiveProduct(t,
      e.sampleRate); e.(decayRate := (1.0 - e.sustainLevel) / (t * e.sampleRate))
    case SetReleaseTime(t) =>
      PositiveProduct(t, e.sampleRate); e.(releaseRate := e.sustainLevel / (t * e.sampleRate), releaseTime := t)
    case SetAttackTarget(t) => e.(target := t)
    case SetSustainLevel(l) => e.(sustainLevel := l)
    case SetSampleRate(r) => e.(sampleRate := r)
  }

  predicate InRange(e: State) {
    && Unit(e.value) && Unit(e.target) && Unit(e.sustainLevel) && e.sampleRate > 0.0
    && e.attackRate >= 0.0 && e.decayRate >= 0.0 && e.releaseRate >= 0.0
  }

  const INITIAL: State := State(Idle, 0.0, 0.0, 0.001, 0.001, 0.005, -1.0, 0.5, 44100.0)

  lemma QuotientPositive(a: real, b: real)
    requires a >= 0.0 && b > 0.0
    ensures a / b >= 0.0
    ensures a > 0.0 ==> a / b > 0.0
  {
    var q := a / b;
    assert q * b == a;
  }

  lemma EventInRange(e: State, event: Event)
    requires InRange(e) && Allowed(event)
    ensures InRange(After(e, event))
  {
    match event
    case SetTimes(a, d, s, r) =>
      PositiveProduct(a, e.sampleRate);
      PositiveProduct(d, e.sampleRate);
      PositiveProduct(r, e.sampleRate);
      QuotientPositive(1.0, a * e.sampleRate);
      QuotientPositive(1.0 - s, d * e.sampleRate);
      QuotientPositive(s, r * e.sampleRate);
    case SetAttackTime(t) =>
      PositiveProduct(t, e.sampleRate);
      QuotientPositive(1.0, t * e.sampleRate);
    case SetDecayTime(t) =>
      PositiveProduct(t, e.sampleRate);
      QuotientPositive(1.0 - e.sustainLevel, t * e.sampleRate);
    case SetReleaseTime(t) =>
      PositiveProduct(t, e.sampleRate);
      QuotientPositive(e.sustainLevel, t * e.sampleRate);
    case KeyOff =>
      if e.releaseTime > 0.0 {
        PositiveProduct(e.releaseTime, e.sampleRate);
        QuotientPositive(e.value, e.releaseTime * e.sampleRate);
      }
    case _ =>
  }

  function Run(e: State, events: seq<Event>): State
    requires InRange(e) && forall i :: 0 <= i < |events| ==> Allowed(events[i])
    decreases |events|
  {
    if events == [] then e
    else
      EventInRange(e, events[0]);
      Run(After(e, events[0]), events[1..])
  }

  /** Over every run of allowed events the value stays between 0 and 1. */
  lemma {:induction false} RunInRange(e: State, events: seq<Event>)
    requires InRange(e) && forall i :: 0 <= i < |events| ==> Allowed(events[i])
    ensures InRange(Run(e, events))
    decreases |events|
  {
    if events != [] {
      EventInRange(e, events[0]);
      RunInRange(After(e, events[0]), events[1..]);
    }
  }

  // ---- How long a note lasts ----

  /** One sample of a note: the granulator releases it as soon as it sustains. */
  function Played(e: State): State
    requires e.sampleRate > 0.0
  {
    var t := Ticked(e);
    if t.stage.Sustain? then KeyedOff(t) else t
  }

  function PlayedFor(e: State, n: nat): State
    requires e.sampleRate > 0.0
    ensures PlayedFor(e, n).sampleRate == e.sampleRate
  {
    if n == 0 then e else Played(PlayedFor(e, n - 1))
  }

  function Ceiling(x: real): int { -((-x).Floor) }

  /** A time in whole samples, rounded up. */
  function SamplesIn(e: State, time: real): int { Ceiling(time * e.sampleRate) }

  function Times(n: int, rate: real): real { n as real * rate }

  /** The rate at which a way of d takes x samples. */
  predicate IsRate(rate: real, d: real, x: real) { x > 0.0 && rate == d / x }

  /** Going d at the rate that takes x samples, the way is not done before the x-th sample. */
  lemma Steps(d: real, x: real, n: nat)
    requires d > 0.0 && x > 0.0
    ensures Times(n, d / x) < d <==> n < Ceiling(x)
    ensures Times(n + 1, d / x) == Times(n, d / x) + d / x
    ensures Times(0, d / x) == 0.0 && Ceiling(x) >= 1
  {
    var rate := d / x;
    assert rate * x == d;
    QuotientPositive(d, x);
    var ahead := x - n as real;
    assert d - Times(n, rate) == ahead * rate;
    if ahead > 0.0 {
      PositiveProduct(ahead, rate);
    } else {
      NotPositive(ahead, rate);
    }
  }

  lemma NotPositive(a: real, b: real)
    requires a <= 0.0 && b > 0.0
    ensures a * b <= 0.0
  {
  }

  function Started(e: State, attack: real, decay: real, level: real, release: real): (s: State)
    requires e.sampleRate > 0.0 && attack > 0.0 && decay > 0.0 && release > 0.0
    ensures s.sampleRate == e.sampleRate
  {
    KeyedOn(WithTimes(e, attack, decay, level, release))
  }

  /** Attack rises in equal steps to its target, from silence or from wherever a note is keyed on again. */
  lemma {:induction false} AttackStage(e: State, x: real, n: nat)
    requires e.stage.Attack? && e.value < e.target && IsRate(e.attackRate, e.target - e.value, x) && e.sampleRate > 0.0
    requires n <= Ceiling(x)
    ensures PlayedFor(e, n) ==
      if n < Ceiling(x) then e.(value := e.value + Times(n, e.attackRate))
        else e.(value := e.target, target := e.sustainLevel, stage := Decay)
  {
    Steps(e.target - e.value, x, n);
    if n > 0 {
      AttackStage(e, x, n - 1);
      Steps(e.target - e.value, x, n - 1);
    }
  }

  /** Decay goes in equal steps to the sustain level, down or up, and is then released. */
  lemma {:induction false} DecayStage(e: State, x: real, n: nat)
    requires e.stage.Decay? && e.value != e.sustainLevel && IsRate(e.decayRate, Way(e.value, e.sustainLevel), x)
    requires e.sampleRate > 0.0 && n <= Ceiling(x)
    ensures PlayedFor(e, n) ==
      if n < Ceiling(x) then e.(value := if e.value > e.sustainLevel then e.value - Times(n, e.decayRate)
        else e.value + Times(n, e.decayRate))
        else KeyedOff(e.(value := e.sustainLevel, stage := Sustain))
  {
    Steps(Way(e.value, e.sustainLevel), x, n);
    if n > 0 {
      DecayStage(e, x, n - 1);
      Steps(Way(e.value, e.sustainLevel), x, n - 1);
    }
  }

  function Way(from: real, to: real): real { if from < to then to - from else from - to }

  lemma RateIsRate(d: real, rate: real)
    requires d > 0.0 && rate > 0.0
    ensures IsRate(rate, d, d / rate)
  {
    QuotientPositive(d, rate);
    var x := d / rate;
    assert x * rate == d;
  }

  /**
   A note that is keyed on again goes on rising from where it is: to the target set before, or to full level if that
   was released. If it is at the target or above, it falls to it within a sample.
   */
  lemma KeyedOnAgain(e: State, n: nat)
    requires e.sampleRate > 0.0 && e.attackRate > 0.0
    ensures var s, t := PlayedFor(KeyedOn(e), n), if e.target > 0.0 then e.target else 1.0;
      var a := if e.value < t then Ceiling((t - e.value) / e.attackRate) else 1;
      && a >= 1
      && (n < a ==> s.stage.Attack? && s.value == e.value + Times(n, e.attackRate))
      && (n == a ==> s.stage.Decay? && s.value == t)
  {
    var k := KeyedOn(e);
    if e.value < k.target {
      RateIsRate(k.target - e.value, e.attackRate);
      var x := (k.target - e.value) / e.attackRate;
      Steps(k.target - e.value, x, 0);
      if n <= Ceiling(x) {
        AttackStage(k, x, n);
      }
    } else if n == 1 {
      assert PlayedFor(k, 1) == Played(PlayedFor(k, 0)) == Played(k);
    }
  }

  function TickedFor(e: State, n: nat): State {
    if n == 0 then e else Ticked(TickedFor(e, n - 1))
  }

  /** A target is reached in equal steps, up at the attack rate or down at the decay rate, and is then held. */
  lemma {:induction false} TargetReached(e: State, t: real, n: nat)
    requires e.value != t && e.attackRate > 0.0 && e.decayRate > 0.0
    ensures var rising := e.value < t; var rate := if rising then e.attackRate else e.decayRate;
      var s, c := TickedFor(WithTarget(e, t), n), Ceiling(Way(e.value, t) / rate);
      && s == WithTarget(e, t).(value := s.value, stage := s.stage)
      && s.value == (if n >= c then t else if rising then e.value + Times(n, rate) else e.value - Times(n, rate))
      && s.stage == if n < c then (if rising then Attack else Decay) else if rising && n == c then Decay else Sustain
  {
    var d, rate := Way(e.value, t), if e.value < t then e.attackRate else e.decayRate;
    RateIsRate(d, rate);
    Steps(d, d / rate, n);
    if n > 0 {
      TargetReached(e, t, n - 1);
      Steps(d, d / rate, n - 1);
    }
    hide Ceiling, Times;
  }

  /** Release falls in equal steps to silence. */
  lemma {:induction false} ReleaseStage(e: State, level: real, x: real, n: nat)
    requires e.stage.Release? && e.value == level > 0.0 && IsRate(e.releaseRate, level, x) && e.sampleRate > 0.0
    requires n <= Ceiling(x)
    ensures PlayedFor(e, n) == if n < Ceiling(x) then e.(value := level - Times(n, e.releaseRate))
      else e.(value := 0.0, stage := Idle)
  {
    Steps(level, x, n);
    if n > 0 {
      ReleaseStage(e, level, x, n - 1);
      Steps(level, x, n - 1);
    }
  }

  lemma {:induction false} PlayedOn(e: State, n: nat, m: nat)
    requires e.sampleRate > 0.0
    ensures PlayedFor(e, n + m) == PlayedFor(PlayedFor(e, n), m)
  {
    if m > 0 {
      PlayedOn(e, n, m - 1);
    }
  }

  /** A note that has just been keyed on, with x, y and z samples' worth of attack, decay and release. */
  ghost predicate Fresh(s: State, x: real, y: real, z: real) {
    && s.stage.Attack? && s.value == 0.0 && s.target == 1.0 && 0.0 < s.sustainLevel <= 1.0 && s.sampleRate > 0.0
    && IsRate(s.attackRate, 1.0, x) && IsRate(s.decayRate, 1.0 - s.sustainLevel, y)
    && s.releaseTime > 0.0 && z > 0.0 && z == s.releaseTime * s.sampleRate
  }

  lemma StartedFresh(e: State, attack: real, decay: real, level: real, release: real)
    requires e.sampleRate > 0.0 && attack > 0.0 && decay > 0.0 && release > 0.0 && 0.0 < level <= 1.0
    requires e.stage.Idle? && e.value == 0.0 && e.target == 0.0
    ensures var s := Started(e, attack, decay, level, release);
      s.sustainLevel == level && Fresh(s, attack * e.sampleRate, decay * e.sampleRate, release * e.sampleRate)
  {
    PositiveProduct(attack, e.sampleRate);
    PositiveProduct(decay, e.sampleRate);
    PositiveProduct(release, e.sampleRate);
  }

  function DecayLength(level: real, y: real): int { if level < 1.0 then Ceiling(y) else 1 }

  /** After its decay a note is released, from its sustain level. */
  lemma NoteDecay(s: State, d: State, y: real, n: nat)
    requires d == s.(value := 1.0, target := s.sustainLevel, stage := Decay) && 0.0 < s.sustainLevel <= 1.0 &&
      s.sampleRate > 0.0
    requires IsRate(s.decayRate, 1.0 - s.sustainLevel, y) && n <= DecayLength(s.sustainLevel, y)
    ensures DecayLength(s.sustainLevel, y) >= 1
    ensures if n < DecayLength(s.sustainLevel, y) then PlayedFor(d, n).stage.Decay?
      else PlayedFor(d, n) == KeyedOff(d.(value := s.sustainLevel, stage := Sustain))
  {
    if s.sustainLevel < 1.0 {
      Steps(1.0 - s.sustainLevel, y, n);
      DecayStage(d, y, n);
    } else {
      assert s.decayRate == 0.0;
      assert n > 0 ==> PlayedFor(d, n) == Played(PlayedFor(d, 0)) == Played(d);
    }
  }

  /** The stage of a note at every sample. */
  lemma FreshStages(s: State, x: real, y: real, z: real, n: nat)
    requires Fresh(s, x, y, z)
    ensures var a, d, r := Ceiling(x), DecayLength(s.sustainLevel, y), Ceiling(z);
      && a >= 1 && d >= 1 && r >= 1
      && PlayedFor(s, n).stage == if n < a then Attack else if n < a + d then Decay else if n < a + d + r then Release
          else Idle
  {
    var a := Ceiling(x);
    Steps(1.0, x, 0);
    var e := s.(value := 1.0, target := s.sustainLevel, stage := Decay);
    AttackStage(s, x, if n < a then n else a);
    hide Ceiling, Times, DecayLength, PlayedFor;
    AfterAttack(s, e, y, z, if n < a then 0 else n - a);
    if n >= a {
      PlayedOn(s, a, n - a);
    }
  }

  /** From the end of its attack on. */
  lemma AfterAttack(s: State, e: State, y: real, z: real, n: nat)
    requires e == s.(value := 1.0, target := s.sustainLevel, stage := Decay) && 0.0 < s.sustainLevel <= 1.0
    requires s.sampleRate > 0.0 && IsRate(s.decayRate, 1.0 - s.sustainLevel, y)
    requires s.releaseTime > 0.0 && z > 0.0 && z == s.releaseTime * s.sampleRate
    ensures var d, r := DecayLength(s.sustainLevel, y), Ceiling(z);
      && d >= 1 && r >= 1
      && PlayedFor(e, n).stage == if n < d then Decay else if n < d + r then Release else Idle
  {
    var d := DecayLength(s.sustainLevel, y);
    Steps(1.0, z, 0);
    var f := e.(value := s.sustainLevel, stage := Sustain);
    ReleasedRate(f, z);
    hide Ceiling, Times, IsRate, DecayLength, PlayedFor;
    NoteDecay(s, e, y, 0);
    NoteDecay(s, e, y, if n < d then n else d);
    if n >= d {
      PlayedOn(e, d, n - d);
      NoteRelease(KeyedOff(f), s.sustainLevel, z, n - d);
    }
  }

  /**
   A note keyed on from silence lasts exactly its attack, decay and release, each rounded up to whole samples; at a
   sustain level of one, the decay still takes a sample.
   */
  lemma NoteLength(e: State, attack: real, decay: real, level: real, release: real, n: nat)
    requires e.sampleRate > 0.0 && attack > 0.0 && decay > 0.0 && release > 0.0 && 0.0 < level <= 1.0
    requires e.stage.Idle? && e.value == 0.0 && e.target == 0.0
    ensures var a, r := SamplesIn(e, attack), SamplesIn(e, release);
      var d := if level < 1.0 then SamplesIn(e, decay) else 1;
      && a >= 1 && d >= 1 && r >= 1
      && PlayedFor(Started(e, attack, decay, level, release), n).stage
        == if n < a then Attack else if n < a + d then Decay else if n < a + d + r then Release else Idle
  {
    StartedFresh(e, attack, decay, level, release);
    var s := Started(e, attack, decay, level, release);
    assert DecayLength(s.sustainLevel, decay * e.sampleRate) == if level < 1.0 then SamplesIn(e, decay) else 1;
    assert SamplesIn(e, attack) == Ceiling(attack * e.sampleRate) && SamplesIn(e, release)
      == Ceiling(release * e.sampleRate);
    hide *;
    FreshStages(s, attack * e.sampleRate, decay * e.sampleRate, release * e.sampleRate, n);
  }

  lemma ReleasedRate(e: State, z: real)
    requires e.sampleRate > 0.0 && e.releaseTime > 0.0 && z == e.releaseTime * e.sampleRate
    ensures IsRate(KeyedOff(e).releaseRate, e.value, z)
  {
    PositiveProduct(e.releaseTime, e.sampleRate);
  }

  lemma NoteRelease(r: State, level: real, x: real, n: nat)
    requires r.stage.Release? && r.value == level > 0.0 && IsRate(r.releaseRate, level, x) && r.sampleRate > 0.0
    ensures PlayedFor(r, n).stage == if n < Ceiling(x) then Release else Idle
  {
    if n <= Ceiling(x) {
      ReleaseStage(r, level, x, n);
    } else {
      Steps(level, x, n);
      ReleaseStage(r, level, x, Ceiling(x));
      PlayedOn(r, Ceiling(x), n - Ceiling(x));
      IdleStays(PlayedFor(r, Ceiling(x)), n - Ceiling(x));
    }
  }

  lemma {:induction false} IdleStays(e: State, n: nat)
    requires e.stage.Idle? && e.sampleRate > 0.0
    ensures PlayedFor(e, n) == e
  {
    if n > 0 {
      IdleStays(e, n - 1);
    }
  }

  // ---- A note's voice ----

  /** A voice that plays a note, with the samples it has played. */
  datatype NoteVoice = NoteVoice(on: bool, envelope: State, done: int)

  /** One sample of a note's voice, which ends with its size or with its envelope. */
  function Voiced(v: NoteVoice, size: int): NoteVoice
    requires v.envelope.sampleRate > 0.0
  {
    var e := Played(v.envelope);
    NoteVoice(v.done + 1 < size && !e.stage.Idle?, e, v.done + 1)
  }

  function VoicedFor(v: NoteVoice, size: int, n: nat): (r: NoteVoice)
    requires v.envelope.sampleRate > 0.0
    ensures r.envelope.sampleRate == v.envelope.sampleRate
  {
    if n == 0 then v
    else
      var before := VoicedFor(v, size, n - 1);
      if before.on then Voiced(before, size) else before
  }

  /** While a voice is on, its envelope has played as many samples as it has. */
  lemma {:induction false} VoicedWhileOn(v: NoteVoice, size: int, n: nat)
    requires v.on && v.done == 0 && v.envelope.sampleRate > 0.0
    ensures VoicedFor(v, size, n).on <==>
      forall k :: 0 < k <= n ==> k < size && !PlayedFor(v.envelope, k).stage.Idle?
    ensures VoicedFor(v, size, n).on ==> VoicedFor(v, size, n) == NoteVoice(true, PlayedFor(v.envelope, n), n)
  {
    hide Played;
    if n > 0 {
      VoicedWhileOn(v, size, n - 1);
      assert PlayedFor(v.envelope, n) == Played(PlayedFor(v.envelope, n - 1));
    }
  }

  /** A note's voice sounds for exactly its size, but at least a sample and no longer than its envelope lasts. */
  lemma NoteLife(e: State, attack: real, decay: real, level: real, release: real, size: int, n: nat)
    requires e.sampleRate > 0.0 && attack > 0.0 && decay > 0.0 && release > 0.0 && 0.0 < level <= 1.0
    requires e.stage.Idle? && e.value == 0.0 && e.target == 0.0
    ensures VoicedFor(NoteVoice(true, Started(e, attack, decay, level, release), 0), size, n).on
      <==> n < (if size < 1 then 1 else size) && n < NoteSamples(e, attack, decay, level, release)
  {
    var s := Started(e, attack, decay, level, release);
    assert s.sampleRate == e.sampleRate;
    hide *;
    VoicedWhileOn(NoteVoice(true, s, 0), size, n);
    forall k: nat
      ensures PlayedFor(s, k).stage.Idle? <==> k >= NoteSamples(e, attack, decay, level, release)
      ensures NoteSamples(e, attack, decay, level, release) > 0
    {
      NoteIdle(e, attack, decay, level, release, k);
    }
  }

  lemma NoteIdle(e: State, attack: real, decay: real, level: real, release: real, n: nat)
    requires e.sampleRate > 0.0 && attack > 0.0 && decay > 0.0 && release > 0.0 && 0.0 < level <= 1.0
    requires e.stage.Idle? && e.value == 0.0 && e.target == 0.0
    ensures PlayedFor(Started(e, attack, decay, level, release), n).stage.Idle? <==>
      n >= NoteSamples(e, attack, decay, level, release)
    ensures NoteSamples(e, attack, decay, level, release) > 0
  {
    hide SamplesIn, PlayedFor, Started;
    NoteLength(e, attack, decay, level, release, n);
  }

  /** How many samples a note's envelope lasts. */
  function NoteSamples(e: State, attack: real, decay: real, level: real, release: real): int {
    SamplesIn(e, attack) + (if level < 1.0 then SamplesIn(e, decay) else 1) + SamplesIn(e, release)
  }

  // ---- The envelope as the code keeps it ----

  class Adsr {
    var stage: Stage
    var value: real
    var target: real
    var attackRate: real
    var decayRate: real
    var releaseRate: real
    var releaseTime: real
    var sustainLevel: real
    var sampleRate: real

    function Model(): State
      reads this
    {
      State(stage, value, target, attackRate, decayRate, releaseRate, releaseTime, sustainLevel, sampleRate)
    }

    constructor ()
      ensures Model() == INITIAL && InRange(Model())
    {
      target, value := 0.0, 0.0;
      attackRate, decayRate, releaseRate, releaseTime := 0.001, 0.001, 0.005, -1.0;
      sustainLevel := 0.5;
      stage := Idle;
      sampleRate := 44100.0;
    }

    method Tick() returns (out: real)
      modifies this
      ensures Model() == Ticked(old(Model())) && out == value
      ensures old(InRange(Model())) ==> 0.0 <= out <= 1.0
    {
      match stage {
        case Attack =>
          value := value + attackRate;
          if value >= target {
            value := target;
            target := sustainLevel;
            stage := Decay;
          }
        case Decay =>
          if value > sustainLevel {
            value := value - decayRate;
            if value <= sustainLevel {
              value := sustainLevel;
              stage := Sustain;
            }
          } else {
            value := value + decayRate;
            if value >= sustainLevel {
              value := sustainLevel;
              stage := Sustain;
            }
          }
        case Release =>
          value := value - releaseRate;
          if value <= 0.0 {
            value := 0.0;
            stage := Idle;
          }
        case _ =>
      }
      out := value;
    }

    method KeyOn()
      modifies this
      ensures Model() == KeyedOn(old(Model()))
    {
      if target <= 0.0 {
        target := 1.0;
      }
      stage := Attack;
    }

    method KeyOff()
      requires sampleRate > 0.0
      modifies this
      ensures Model() == KeyedOff(old(Model()))
    {
      target := 0.0;
      stage := Release;
      if releaseTime > 0.0 {
        PositiveProduct(releaseTime, sampleRate);
        releaseRate := value / (releaseTime * sampleRate);
      }
    }

    method SetAllTimes(attack: real, decay: real, level: real, release: real)
      requires sampleRate > 0.0 && attack > 0.0 && decay > 0.0 && release > 0.0
      modifies this
      ensures Model() == WithTimes(old(Model()), attack, decay, level, release)
    {
      PositiveProduct(attack, sampleRate);
      PositiveProduct(decay, sampleRate);
      PositiveProduct(release, sampleRate);
      attackRate := 1.0 / (attack * sampleRate);
      sustainLevel := level;
      decayRate := (1.0 - sustainLevel) / (decay * sampleRate);
      releaseRate := sustainLevel / (release * sampleRate);
      releaseTime := release;
    }

    method SetTarget(newTarget: real)
      modifies this
      ensures Model() == WithTarget(old(Model()), newTarget)
    {
      target := newTarget;
      sustainLevel := target;
      if value < target {
        stage := Attack;
      }
      if value > target {
        stage := Decay;
      }
    }

    method SetValue(newValue: real)
      modifies this
      ensures Model() == WithValue(old(Model()), newValue)
    {
      stage := Sustain;
      target := newValue;
      value := newValue;
      sustainLevel := newValue;
    }

    /** One sample of a granulator's note, and whether its voice goes on after `done` samples before it. */
    method PlayVoice(size: int, done: int) returns (out: real, on: bool)
      requires sampleRate > 0.0
      modifies this
      ensures var v := Voiced(NoteVoice(true, old(Model()), done), size); Model() == v.envelope && on == v.on
      ensures out == Ticked(old(Model())).value
    {
      out := PlayNote();
      on := true;
      if done + 1 >= size || stage == Idle {
        on := false;
      }
    }

    /** One sample of a granulator's note. */
    method PlayNote() returns (out: real)
      requires sampleRate > 0.0
      modifies this
      ensures Model() == Played(old(Model())) && out == Ticked(old(Model())).value
    {
      out := Tick();
      if stage == Sustain {
        KeyOff();
      }
    }
  }
}
