/**
 disis_wiimote's handshake between the message handlers and the worker thread that talks to the device. A handler
 stores into a shared field without the mutex, and only then locks, signals and unlocks; the worker compares the
 fields with its own copies under the mutex, waits when they agree, and sends what differs. Every load, store, lock,
 signal and send is one step here, and the steps of one worker and any number of handlers interleave freely.
 */
module Handshake {

  /** The bits of a report mode, as the device's library names them; eight bits fill the byte. */
  datatype Bit = Status | Buttons | Ir | Acc | Nunchuk | Classic | Balance | Motion
  type Mode = set<Bit>

  /** What is requested, remembered by the worker, or last sent to the device. */
  datatype Fields = Fields(led: real, rumble: real, mode: Mode)

  /** Where the worker is in its loop. Woken means signalled but without the mutex again. */
  datatype Pc =
    | Top | Lock | CompareLed | CompareRumble | CompareMode | Waiting | Woken
    | TestLed | CopyLed | SendLed
    | TestRumble | CopyRumble | SendRumble
    | TestMode | CopyMode | SendMode
    | Unlock

  datatype Owner = Free | Worker | Handler(index: nat)

  datatype Request =
    | SetLed(led: real)
    | SetRumble(rumble: real)
    | SetMode(mode: Mode)
    | RestoreMode(ir: bool, acc: bool, exp: bool, attached: int)

  /** One access to a shared field; adding bits to the mode is a load and a store. */
  datatype Access =
    | StoreLed(led: real)
    | StoreRumble(rumble: real)
    | StoreMode(mode: Mode)
    | LoadMode(added: Mode)
    | StoreLoaded

  datatype Writer =
    | Idle
    | Storing(todo: seq<Access>, loaded: Mode, wrote: bool)
    | Locking
    | Signalling
    | Releasing

  datatype System = System(shared: Fields, local: Fields, sent: Fields, pc: Pc, owner: Owner, writers: seq<Writer>)

  // ---- The handlers ----

  /** Each |= on the report mode is a load and a store. */
  function Added(masks: seq<Mode>): seq<Access> {
    if masks == [] then [] else [LoadMode(masks[0]), StoreLoaded] + Added(masks[1..])
  }

  /** The expansion's bits; attachments 5 and 6 run on into the next case, as the code does. */
  function Expansion(attached: int): seq<Mode> {
    if attached == 1 then [{Nunchuk}]
    else if attached == 2 then [{Classic}]
    else if attached == 3 then [{Balance}]
    else if attached == 4 then [{Motion}]
    else if attached == 5 then [{Nunchuk}, {Motion}, {Classic}, {Motion}]
    else if attached == 6 then [{Classic}, {Motion}]
    else []
  }

  function Plan(r: Request): seq<Access> {
    match r
    case SetLed(f) => [StoreLed(f)]
    case SetRumble(f) => [StoreRumble(f)]
    case SetMode(m) => [StoreMode(m)]
    case RestoreMode(ir, acc, exp, attached) =>
      [StoreMode({Status, Buttons})]
      + Added((if ir then [{Ir}] else []) + (if acc then [{Acc}] else []) + (if exp then Expansion(attached) else []))
  }

  /** A handler that would change nothing returns before it touches the mutex; report modes are always stored. */
  predicate Needless(f: Fields, r: Request) {
    match r
    case SetLed(v) => f.led == v
    case SetRumble(v) => f.rumble == v
    case _ => false
  }

  function Accessed(f: Fields, loaded: Mode, a: Access): (Fields, Mode) {
    match a
    case StoreLed(v) => (f.(led := v), loaded)
    case StoreRumble(v) => (f.(rumble := v), loaded)
    case StoreMode(m) => (f.(mode := m), loaded)
    case LoadMode(added) => (f, f.mode + added)
    case StoreLoaded => (f.(mode := loaded), loaded)
  }

  // ---- The steps ----

  predicate Holds(pc: Pc) {
    !(pc.Top? || pc.Lock? || pc.Waiting? || pc.Woken?)
  }

  /** Whether the worker can take its next step: it cannot while it waits, nor take a mutex that is held. */
  predicate WorkerEnabled(s: System) {
    !s.pc.Waiting? && (s.pc.Lock? || s.pc.Woken? ==> s.owner.Free?)
  }

  function Work(s: System): System
    requires WorkerEnabled(s)
  {
    match s.pc
    case Top => s.(pc := Lock)
    case Lock => s.(pc := CompareLed, owner := Worker)
    case CompareLed => s.(pc := if s.local.led == s.shared.led then CompareRumble else TestLed)
    case CompareRumble => s.(pc := if s.local.rumble == s.shared.rumble then CompareMode else TestLed)
    case CompareMode => if s.local.mode == s.shared.mode then s.(pc := Waiting, owner := Free) else s.(pc := TestLed)
    case Woken => s.(pc := TestLed, owner := Worker)
    case TestLed => s.(pc := if s.local.led != s.shared.led then CopyLed else TestRumble)
    case CopyLed => s.(pc := SendLed, local := s.local.(led := s.shared.led))
    case SendLed => s.(pc := TestRumble, sent := s.sent.(led := s.local.led))
    case TestRumble => s.(pc := if s.local.rumble != s.shared.rumble then CopyRumble else TestMode)
    case CopyRumble => s.(pc := SendRumble, local := s.local.(rumble := s.shared.rumble))
    case SendRumble => s.(pc := TestMode, sent := s.sent.(rumble := s.local.rumble))
    case TestMode => s.(pc := if s.local.mode != s.shared.mode then CopyMode else Unlock)
    case CopyMode => s.(pc := SendMode, local := s.local.(mode := s.shared.mode))
    case SendMode => s.(pc := Unlock, sent := s.sent.(mode := s.local.mode))
    case Unlock => s.(pc := Top, owner := Free)
  }

  predicate WriterEnabled(s: System, i: nat)
    requires i < |s.writers|
  {
    !s.writers[i].Idle? && (s.writers[i].Locking? ==> s.owner.Free?)
  }

  /** The next step of a handler that is under way. Signalling wakes the worker if it waits, and is lost otherwise. */
  function Write(s: System, i: nat): System
    requires i < |s.writers| && WriterEnabled(s, i)
  {
    match s.writers[i]
    case Storing(todo, loaded, wrote) =>
      if todo == [] then s.(writers := s.writers[i := Locking])
      else
        var (f, l) := Accessed(s.shared, loaded, todo[0]);
        s.(shared := f, writers := s.writers[i := Storing(todo[1..], l, true)])
    case Locking => s.(owner := Handler(i), writers := s.writers[i := Signalling])
    case Signalling => s.(pc := if s.pc.Waiting? then Woken else s.pc, writers := s.writers[i := Releasing])
    case Releasing => s.(owner := Free, writers := s.writers[i := Idle])
  }

  function Begin(s: System, i: nat, r: Request): System
    requires i < |s.writers| && s.writers[i].Idle?
  {
    if Needless(s.shared, r) then s else s.(writers := s.writers[i := Storing(Plan(r), {}, false)])
  }

  datatype Event = WorkerMoves | Begins(i: nat, request: Request) | WriterMoves(i: nat) | WakesUnasked

  predicate Possible(s: System, e: Event) {
    match e
    case WorkerMoves => WorkerEnabled(s)
    case Begins(i, r) => i < |s.writers| && s.writers[i].Idle?
    case WriterMoves(i) => i < |s.writers| && WriterEnabled(s, i)
    case WakesUnasked => s.pc.Waiting?
  }

  function After(s: System, e: Event): System
    requires Possible(s, e)
  {
    match e
    case WorkerMoves => Work(s)
    case Begins(i, r) => Begin(s, i, r)
    case WriterMoves(i) => Write(s, i)
    case WakesUnasked => s.(pc := Woken)
  }

  /** The worker starts with copies of the fields, and counts them as sent. */
  predicate Initial(s: System) {
    s.pc.Top? && s.owner.Free? && s.local == s.sent == s.shared && forall i :: 0 <= i < |s.writers| ==>
      s.writers[i].Idle?
  }

  /** Every run is a list of possible events from an initial state. */
  predicate Runs(s: System, events: seq<Event>, t: System)
    decreases |events|
  {
    if events == [] then s == t
    else Possible(s, events[0]) && Runs(After(s, events[0]), events[1..], t)
  }

  // ---- The invariant ----

  /** A handler between its first access and its signal. */
  predicate Pending(w: Writer) {
    (w.Storing? && w.wrote) || w.Locking? || w.Signalling?
  }

  predicate SomePending(s: System) {
    exists i :: 0 <= i < |s.writers| && Pending(s.writers[i])
  }

  predicate HoldsMutex(w: Writer) { w.Signalling? || w.Releasing? }

  ghost predicate Exclusive(s: System) {
    && (s.owner.Worker? <==> Holds(s.pc))
    && (s.owner.Handler? ==> s.owner.index < |s.writers|)
    && forall i :: 0 <= i < |s.writers| ==> (HoldsMutex(s.writers[i]) <==> s.owner == Handler(i))
  }

  /** What the worker remembers is what it sent, except just before it sends. */
  predicate Told(s: System) {
    && (s.pc.SendLed? || s.sent.led == s.local.led)
    && (s.pc.SendRumble? || s.sent.rumble == s.local.rumble)
    && (s.pc.SendMode? || s.sent.mode == s.local.mode)
  }

  predicate LedPassed(pc: Pc) { pc.CompareRumble? || pc.CompareMode? || pc.Waiting? }
  predicate RumblePassed(pc: Pc) { pc.CompareMode? || pc.Waiting? }

  /** A field that passed the comparison still agrees, or a handler is about to signal. */
  predicate Covered(s: System) {
    SomePending(s)
    || ( && (LedPassed(s.pc) ==> s.local.led == s.shared.led)
         && (RumblePassed(s.pc) ==> s.local.rumble == s.shared.rumble)
         && (s.pc.Waiting? ==> s.local.mode == s.shared.mode))
  }

  ghost predicate Invariant(s: System) {
    Exclusive(s) && Told(s) && Covered(s)
  }

  lemma InitialInvariant(s: System)
    requires Initial(s)
    ensures Invariant(s)
  {
  }

  lemma WorkKeepsInvariant(s: System)
    requires Invariant(s) && WorkerEnabled(s)
    ensures Invariant(Work(s))
  {
    assert Work(s).writers == s.writers;
    assert SomePending(s) <==> SomePending(Work(s));
  }

  lemma OthersPending(s: System, t: System, i: nat)
    requires i < |s.writers| == |t.writers| && t.writers == s.writers[i := t.writers[i]]
    ensures Pending(t.writers[i]) ==> SomePending(t)
    ensures SomePending(s) && !Pending(s.writers[i]) ==> SomePending(t)
  {
    if SomePending(s) && !Pending(s.writers[i]) {
      var k :| 0 <= k < |s.writers| && Pending(s.writers[k]);
      assert Pending(t.writers[k]);
    }
  }

  lemma WriteKeepsInvariant(s: System, i: nat)
    requires Invariant(s) && i < |s.writers| && WriterEnabled(s, i)
    ensures Invariant(Write(s, i))
  {
    var t := Write(s, i);
    OthersPending(s, t, i);
    assert HoldsMutex(s.writers[i]) <==> s.owner == Handler(i);
    assert forall k :: 0 <= k < |s.writers| && k != i ==> t.writers[k] == s.writers[k];
  }

  lemma BeginKeepsInvariant(s: System, i: nat, r: Request)
    requires Invariant(s) && i < |s.writers| && s.writers[i].Idle?
    ensures Invariant(Begin(s, i, r))
  {
    OthersPending(s, Begin(s, i, r), i);
  }

  /** Every event keeps the invariant. */
  lemma StepKeepsInvariant(s: System, e: Event)
    requires Invariant(s) && Possible(s, e)
    ensures Invariant(After(s, e))
  {
    match e
    case WorkerMoves => WorkKeepsInvariant(s);
    case Begins(i, r) => BeginKeepsInvariant(s, i, r);
    case WriterMoves(i) => WriteKeepsInvariant(s, i);
    case WakesUnasked =>
      assert SomePending(s) <==> SomePending(After(s, e));
  }

  lemma {:induction false} RunKeepsInvariant(s: System, events: seq<Event>, t: System)
    requires Invariant(s) && Runs(s, events, t)
    ensures Invariant(t)
    decreases |events|
  {
    if events != [] {
      StepKeepsInvariant(s, events[0]);
      RunKeepsInvariant(After(s, events[0]), events[1..], t);
    }
  }

  // ---- What is guaranteed ----

  /**
   No update is lost: when the worker is blocked and no handler is about to signal, the device was told every
   requested value.
   */
  lemma NoLostUpdate(s: System, events: seq<Event>, t: System)
    requires Initial(s) && Runs(s, events, t)
    ensures t.pc.Waiting? && !SomePending(t) ==> t.sent == t.shared
  {
    InitialInvariant(s);
    RunKeepsInvariant(s, events, t);
  }

  /** The mutex works: two handlers, or a handler and the worker, never hold it together. */
  lemma MutualExclusion(s: System, events: seq<Event>, t: System, i: nat, k: nat)
    requires Initial(s) && Runs(s, events, t) && i < |t.writers| && k < |t.writers|
    ensures HoldsMutex(t.writers[i]) && HoldsMutex(t.writers[k]) ==> i == k
    ensures HoldsMutex(t.writers[i]) ==> !Holds(t.pc)
  {
    InitialInvariant(s);
    RunKeepsInvariant(s, events, t);
    assert HoldsMutex(t.writers[i]) ==> t.owner == Handler(i);
    assert HoldsMutex(t.writers[k]) ==> t.owner == Handler(k);
  }

  /**
   While the device lags behind, the worker or a handler under way can move: nothing waits for an event from outside.
   */
  lemma NeverStuck(s: System, events: seq<Event>, t: System)
    requires Initial(s) && Runs(s, events, t) && t.sent != t.shared
    ensures WorkerEnabled(t) || exists i :: 0 <= i < |t.writers| && WriterEnabled(t, i)
  {
    InitialInvariant(s);
    RunKeepsInvariant(s, events, t);
    if !WorkerEnabled(t) {
      if t.owner.Handler? {
        assert WriterEnabled(t, t.owner.index);
      } else {
        assert SomePending(t);
        var i :| 0 <= i < |t.writers| && Pending(t.writers[i]);
        assert WriterEnabled(t, i);
      }
    }
  }

  // ---- Left alone, the worker catches up ----

  predicate Stale(a: Fields, b: Fields, upTo: nat) {
    a.led != b.led || (upTo >= 2 && a.rumble != b.rumble) || (upTo >= 3 && a.mode != b.mode)
  }

  /** Some field differs that the worker will not look at any more in this turn of its loop. */
  predicate Behind(s: System) {
    match s.pc
    case Top | Lock | CompareLed | CompareRumble | CompareMode => s.local != s.shared
    case Waiting | Woken | TestLed | CopyLed => false
    case SendLed | TestRumble | CopyRumble => Stale(s.local, s.shared, 1)
    case SendRumble | TestMode | CopyMode => Stale(s.local, s.shared, 2)
    case SendMode | Unlock => Stale(s.local, s.shared, 3)
  }

  function Distance(pc: Pc): nat {
    match pc
    case Waiting => 0
    case CompareMode => 1 case CompareRumble => 2 case CompareLed => 3 case Lock => 4 case Top => 5
    case Unlock => 6
    case SendMode => 7 case CopyMode => 8 case TestMode => 9
    case SendRumble => 10 case CopyRumble => 11 case TestRumble => 12
    case SendLed => 13 case CopyLed => 14 case TestLed => 15
    case Woken => 16
  }

  function Rank(s: System): (r: nat)
    ensures r <= 28
  {
    Distance(s.pc) + (if Behind(s) then 15 else 0)
  }

  predicate HandlersOut(s: System) {
    forall i :: 0 <= i < |s.writers| ==> !HoldsMutex(s.writers[i])
  }

  /** The worker takes n steps while the handlers stand still, or stops where it waits. */
  function Alone(s: System, n: nat): System
    decreases n
  {
    if n == 0 || !WorkerEnabled(s) then s else Alone(Work(s), n - 1)
  }

  lemma WorkAdvances(s: System)
    requires Invariant(s) && HandlersOut(s) && !SomePending(s) && !s.pc.Waiting?
    ensures WorkerEnabled(s) && Rank(Work(s)) < Rank(s)
  {
    forall k | 0 <= k < |s.writers|
      ensures s.owner != Handler(k)
    {
      assert !HoldsMutex(s.writers[k]);
    }
  }

  /**
   With no handler under way, the worker waits after at most 28 steps of its own, and then the device has every
   requested value.
   */
  lemma {:induction false} CatchesUp(s: System, n: nat)
    requires Invariant(s) && HandlersOut(s) && !SomePending(s) && n >= Rank(s)
    ensures var t := Alone(s, n); t.pc.Waiting? && t.shared == s.shared && t.sent == t.shared
    decreases n
  {
    if !s.pc.Waiting? {
      WorkAdvances(s);
      WorkKeepsInvariant(s);
      assert SomePending(Work(s)) <==> SomePending(s);
      CatchesUp(Work(s), n - 1);
    }
  }

  // ---- What a handler leaves in the fields ----

  function Undisturbed(f: Fields, loaded: Mode, plan: seq<Access>): Fields
    decreases |plan|
  {
    if plan == [] then f
    else
      var (g, l) := Accessed(f, loaded, plan[0]);
      Undisturbed(g, l, plan[1..])
  }

  /** What a request asks for, bit by bit: attachment 5 gets the classic controller's bit as well as the nunchuk's. */
  predicate Wanted(b: Bit, ir: bool, acc: bool, exp: bool, attached: int) {
    match b
    case Status | Buttons => true
    case Ir => ir
    case Acc => acc
    case Nunchuk => exp && (attached == 1 || attached == 5)
    case Classic => exp && (attached == 2 || attached == 5 || attached == 6)
    case Balance => exp && attached == 3
    case Motion => exp && 4 <= attached <= 6
  }

  function AllBits(): Mode { {Status, Buttons, Ir, Acc, Nunchuk, Classic, Balance, Motion} }

  function Requested(f: Fields, r: Request): Fields {
    match r
    case SetLed(v) => f.(led := v)
    case SetRumble(v) => f.(rumble := v)
    case SetMode(m) => f.(mode := m)
    case RestoreMode(ir, acc, exp, attached) =>
      f.(mode := set b <- AllBits() | Wanted(b, ir, acc, exp, attached))
  }

  /** All bits of the masks. */
  function Union(masks: seq<Mode>): Mode {
    if masks == [] then {} else masks[0] + Union(masks[1..])
  }

  lemma {:induction false} UnionSplit(a: seq<Mode>, b: seq<Mode>)
    ensures Union(a + b) == Union(a) + Union(b)
    decreases |a|
  {
    if a == [] {
      assert a + b == b;
    } else {
      assert (a + b)[1..] == a[1..] + b;
      UnionSplit(a[1..], b);
    }
  }

  lemma TwoAccesses(f: Fields, loaded: Mode, mask: Mode, rest: seq<Access>)
    ensures Undisturbed(f, loaded, [LoadMode(mask), StoreLoaded] + rest)
         == Undisturbed(f.(mode := f.mode + mask), f.mode + mask, rest)
  {
    var plan := [LoadMode(mask), StoreLoaded] + rest;
    assert plan[1..] == [StoreLoaded] + rest;
    assert plan[1..][1..] == rest;
  }

  lemma {:induction false} AddedLeaves(f: Fields, loaded: Mode, masks: seq<Mode>)
    ensures Undisturbed(f, loaded, Added(masks)) == f.(mode := f.mode + Union(masks))
    decreases |masks|
  {
    if masks == [] {
      assert f.mode + Union(masks) == f.mode;
    } else {
      TwoAccesses(f, loaded, masks[0], Added(masks[1..]));
      var l := f.mode + masks[0];
      AddedLeaves(f.(mode := l), l, masks[1..]);
      assert l + Union(masks[1..]) == f.mode + Union(masks);
    }
  }

  lemma UnionOfFew(a: Mode, b: Mode, c: Mode, d: Mode)
    ensures Union([]) == {} && Union([a]) == a && Union([a, b]) == a + b && Union([a, b, c, d]) == a + b + c + d
  {
    UnionSplit([a], [b]);
    UnionSplit([c], [d]);
    UnionSplit([a, b], [c, d]);
    assert [a] + [b] == [a, b] && [c] + [d] == [c, d] && [a, b] + [c, d] == [a, b, c, d];
  }

  lemma ExpansionUnion(attached: int)
    ensures forall b :: b in Union(Expansion(attached)) <==>
      !b.Status? && !b.Buttons? && Wanted(b, false, false, true, attached)
  {
    UnionOfFew({Nunchuk}, {Motion}, {Classic}, {Motion});
    UnionOfFew({Classic}, {Motion}, {}, {});
    UnionOfFew({Balance}, {}, {}, {});
    UnionOfFew({Motion}, {}, {}, {});
  }

  /** Undisturbed by other handlers, the accesses of a handler leave the requested fields. */
  lemma PlanLeaves(f: Fields, r: Request)
    ensures Undisturbed(f, {}, Plan(r)) == Requested(f, r)
  {
    if r.RestoreMode? {
      var ir, acc := if r.ir then [{Ir}] else [], if r.acc then [{Acc}] else [];
      var exp := if r.exp then Expansion(r.attached) else [];
      assert Plan(r)[1..] == Added(ir + acc + exp);
      var base := f.(mode := {Status, Buttons});
      AddedLeaves(base, {}, ir + acc + exp);
      UnionSplit(ir + acc, exp);
      UnionSplit(ir, acc);
      UnionOfFew({Ir}, {}, {}, {});
      UnionOfFew({Acc}, {}, {}, {});
      ExpansionUnion(r.attached);
      SameBits(base.mode + Union(ir + acc + exp), r.ir, r.acc, r.exp, r.attached);
    }
  }

  lemma SameBits(m: Mode, ir: bool, acc: bool, exp: bool, attached: int)
    requires forall b :: b in m <==> Wanted(b, ir, acc, exp, attached)
    ensures m == set b <- AllBits() | Wanted(b, ir, acc, exp, attached)
  {
  }

  // ---- From a message to the device ----

  /** What handler i will have left in the fields once it is through. */
  function Eventual(s: System, i: nat): Fields
    requires i < |s.writers|
  {
    if s.writers[i].Storing? then Undisturbed(s.shared, s.writers[i].loaded, s.writers[i].todo) else s.shared
  }

  /** The worker and handler i move, in any order, and the worker may wake unasked; no other handler stores. */
  predicate OnlyHandler(events: seq<Event>, i: nat) {
    forall k :: 0 <= k < |events| ==> events[k].WorkerMoves? || events[k].WakesUnasked? || events[k] == WriterMoves(i)
  }

  lemma {:induction false} KeepsGoal(s: System, events: seq<Event>, t: System, i: nat)
    requires Runs(s, events, t) && OnlyHandler(events, i) && i < |s.writers|
    ensures i < |t.writers| && Eventual(t, i) == Eventual(s, i)
    decreases |events|
  {
    if events != [] {
      var next := After(s, events[0]);
      assert Eventual(next, i) == Eventual(s, i);
      KeepsGoal(next, events[1..], t, i);
    }
  }

  /** A message handled while no other handler stores reaches the device by the time the worker is blocked again. */
  lemma Delivered(s: System, before: seq<Event>, m: System, i: nat, r: Request, events: seq<Event>, t: System)
    requires Initial(s) && Runs(s, before, m) && Possible(m, Begins(i, r))
    requires Runs(After(m, Begins(i, r)), events, t) && OnlyHandler(events, i)
    requires i < |t.writers| && t.writers[i].Idle? && t.pc.Waiting? && !SomePending(t)
    ensures t.sent == t.shared == Requested(m.shared, r)
  {
    InitialInvariant(s);
    RunKeepsInvariant(s, before, m);
    var b := After(m, Begins(i, r));
    BeginKeepsInvariant(m, i, r);
    RunKeepsInvariant(b, events, t);
    KeepsGoal(b, events, t, i);
    PlanLeaves(m.shared, r);
  }
}