/** The sleep assertion and its inactivity timers: an aborted timer may still fire, and must not matter. */
module PreventSleep {
  import opened Options

  /** Generations are 64-bit and wrap. */
  const WORD: nat := 0x1_0000_0000_0000_0000

  /** `armedAt` numbers the generation changes so far; the timer itself only knows its wrapped generation. */
  datatype Timer = Timer(generation: nat, armedAt: nat, spent: bool)

  /** Assertions are numbered in the order the system handed them out. */
  datatype Sleep = Sleep(
    assertion: Option<nat>,
    timer: Option<nat>,
    generation: nat,
    changes: nat,
    timers: seq<Timer>,
    created: nat,
    released: seq<nat>)

  const IDLE := Sleep(None, None, 0, 0, [], 0, [])

  // ---- Steps ----

  function Bump(s: Sleep): Sleep {
    s.(timer := None, generation := (s.generation + 1) % WORD, changes := s.changes + 1)
  }

  function Arm(s: Sleep): Sleep {
    var b := Bump(s);
    b.(timer := Some(|b.timers|), timers := b.timers + [Timer(b.generation, b.changes, false)])
  }

  function LetGo(s: Sleep): Sleep {
    if s.assertion.Some? then s.(assertion := None, released := s.released + [s.assertion.value]) else s
  }

  /** `granted` is whether the system hands out an assertion when asked. */
  function Acquire(s: Sleep, granted: bool): Sleep {
    if s.assertion.Some? then Arm(s)
    else if granted then Arm(s.(assertion := Some(s.created), created := s.created + 1))
    else s
  }

  function Release(s: Sleep): Sleep { LetGo(Bump(s)) }

  function Expire(s: Sleep, t: nat): Sleep
    requires t < |s.timers|
  {
    var spent := s.(timers := s.timers[t := s.timers[t].(spent := true)]);
    if s.generation != s.timers[t].generation then spent else LetGo(spent.(timer := None))
  }

  class PreventSleepState {
    var assertion: Option<nat>
    var timer: Option<nat>
    var generation: nat
    var changes: nat
    var timers: seq<Timer>
    var created: nat
    var released: seq<nat>

    function State(): Sleep
      reads this
    {
      Sleep(assertion, timer, generation, changes, timers, created, released)
    }

    constructor ()
      ensures State() == IDLE
    {
      assertion, timer, generation, changes, timers, created, released := None, None, 0, 0, [], 0, [];
    }

    method AbortTimer()
      modifies this`timer
      ensures timer == None
    {
      timer := None;
    }

    method ArmCapTimer()
      modifies this
      ensures State() == Arm(old(State()))
    {
      AbortTimer();
      generation, changes := (generation + 1) % WORD, changes + 1;
      timers := timers + [Timer(generation, changes, false)];
      timer := Some(|timers| - 1);
    }

    method ReleaseAssertion()
      modifies this
      ensures State() == LetGo(old(State()))
    {
      if assertion.Some? {
        released := released + [assertion.value];
        assertion := None;
      }
    }

    /** A timer after its sleep; the answer is whether the renderer is told. */
    method ExpireIfCurrent(t: nat) returns (expired: bool)
      requires t < |timers|
      modifies this
      ensures State() == Expire(old(State()), t)
      ensures expired == (old(generation) == old(timers)[t].generation)
    {
      timers := timers[t := timers[t].(spent := true)];
      if generation != timers[t].generation { return false; }
      timer := None;
      ReleaseAssertion();
      expired := true;
    }

    method AcquireAssertion(granted: bool) returns (r: Result<(), ()>)
      modifies this
      ensures State() == Acquire(old(State()), granted)
      ensures r.Ok? <==> assertion.Some?
    {
      if assertion.Some? {
        ArmCapTimer();
        return Ok(());
      }
      if !granted { return Err(()); }
      assertion, created := Some(created), created + 1;
      ArmCapTimer();
      r := Ok(());
    }

    method ReleaseHeld()
      modifies this
      ensures State() == Release(old(State()))
    {
      AbortTimer();
      generation, changes := (generation + 1) % WORD, changes + 1;
      ReleaseAssertion();
    }
  }

  // ---- Runs ----

  datatype Action = Activity(granted: bool) | Quiet | Fire(t: nat)

  /** An aborted timer may have been past its last await, so any timer not yet spent may fire. */
  predicate Enabled(s: Sleep, a: Action) { a.Fire? ==> a.t < |s.timers| && !s.timers[a.t].spent }

  function Next(s: Sleep, a: Action): Sleep
    requires Enabled(s, a)
  {
    match a
    case Activity(granted) => Acquire(s, granted)
    case Quiet => Release(s)
    case Fire(t) => Expire(s, t)
  }

  function Run(run: seq<Action>): Option<Sleep> {
    if run == [] then Some(IDLE)
    else
      var before := Run(run[..|run| - 1]);
      if before.Some? && Enabled(before.value, run[|run| - 1]) then Some(Next(before.value, run[|run| - 1])) else None
  }

  /** Every assertion is held or has been released, and no assertion twice. */
  predicate Ledger(s: Sleep) {
    && (s.assertion.Some? ==> s.assertion.value == s.created - 1 && s.assertion.value !in s.released)
    && (forall i, j :: 0 <= i < j < |s.released| ==> s.released[i] != s.released[j])
    && |s.released| + (if s.assertion.Some? then 1 else 0) == s.created
    && (forall a :: a in s.released ==> a < s.created)
  }

  predicate Clocked(s: Sleep) {
    && s.generation == s.changes % WORD
    && (forall t :: 0 <= t < |s.timers| ==>
          s.timers[t].generation == s.timers[t].armedAt % WORD && s.timers[t].armedAt <= s.changes)
    && (forall t, u :: 0 <= t < u < |s.timers| ==> s.timers[t].armedAt < s.timers[u].armedAt)
  }

  lemma NextResidue(n: nat)
    ensures (n % WORD + 1) % WORD == (n + 1) % WORD
  {
  }

  lemma StepClocked(s: Sleep, a: Action)
    requires Clocked(s) && Enabled(s, a)
    ensures Clocked(Next(s, a))
  {
    NextResidue(s.changes);
  }

  lemma {:induction false} RunClocked(run: seq<Action>)
    requires Run(run).Some?
    ensures Clocked(Run(run).value)
  {
    if run != [] {
      RunClocked(run[..|run| - 1]);
      StepClocked(Run(run[..|run| - 1]).value, run[|run| - 1]);
    }
  }

  /** Over every run, wrapped generations included, no assertion is released twice or forgotten. */
  lemma {:induction false} EachReleasedOnce(run: seq<Action>)
    requires Run(run).Some?
    ensures Ledger(Run(run).value)
  {
    if run != [] {
      EachReleasedOnce(run[..|run| - 1]);
    }
  }

  /** Not yet fired, and of the current generation. */
  predicate Current(s: Sleep, t: nat) {
    t < |s.timers| && !s.timers[t].spent && s.timers[t].generation == s.generation
  }

  /** The one live timer is the one whose handle is kept, and it stands exactly while the assertion is held. */
  ghost predicate OneTimer(s: Sleep) {
    && (s.assertion.Some? <==> s.timer.Some?)
    && (forall t: nat :: Current(s, t) <==> s.timer == Some(t))
  }

  lemma ChangesOnlyGrow(s: Sleep, a: Action)
    requires Enabled(s, a)
    ensures s.changes <= Next(s, a).changes
  {
  }

  /** Before the first wrap a generation names one change. */
  lemma CurrentIsLatest(s: Sleep, t: nat)
    requires Clocked(s) && s.changes < WORD
    ensures Current(s, t) <==> t < |s.timers| && !s.timers[t].spent && s.timers[t].armedAt == s.changes
  {
  }

  lemma BumpRetires(s: Sleep, t: nat)
    requires Clocked(s) && s.changes + 1 < WORD
    ensures Clocked(Bump(s)) && !Current(Bump(s), t)
  {
    NextResidue(s.changes);
    CurrentIsLatest(Bump(s), t);
  }

  lemma ArmLeavesOne(s: Sleep, t: nat)
    requires Clocked(s) && s.changes + 1 < WORD
    ensures Current(Arm(s), t) <==> Arm(s).timer == Some(t)
  {
    BumpRetires(s, t);
  }

  lemma ExpireLeaves(s: Sleep, k: nat, t: nat)
    requires OneTimer(s) && k < |s.timers| && !s.timers[k].spent
    ensures Current(Expire(s, k), t) <==> Expire(s, k).timer == Some(t)
  {
    assert Current(s, t) <==> s.timer == Some(t);
    assert Current(s, k) <==> s.timer == Some(k);
  }

  lemma StepKeepsOneTimer(s: Sleep, a: Action)
    requires Clocked(s) && OneTimer(s) && Enabled(s, a) && Next(s, a).changes < WORD
    ensures OneTimer(Next(s, a))
  {
    forall t: nat
      ensures Current(Next(s, a), t) <==> Next(s, a).timer == Some(t)
    {
      match a
      case Activity(granted) =>
        if s.assertion.Some? || granted { ArmLeavesOne(s, t); }
        assert Current(s, t) <==> s.timer == Some(t);
      case Quiet => BumpRetires(s, t);
      case Fire(k) => ExpireLeaves(s, k, t);
    }
    if a.Fire? { assert Current(s, a.t) <==> s.timer == Some(a.t); }
  }

  /** Short of 2^64 generation changes, a held assertion has exactly one current timer and an idle state none. */
  lemma {:induction false} HeldHasOneTimer(run: seq<Action>)
    requires Run(run).Some? && Run(run).value.changes < WORD
    ensures OneTimer(Run(run).value)
  {
    if run != [] {
      var before := run[..|run| - 1];
      RunClocked(before);
      ChangesOnlyGrow(Run(before).value, run[|run| - 1]);
      HeldHasOneTimer(before);
      StepKeepsOneTimer(Run(before).value, run[|run| - 1]);
    }
  }

  /** After `release` nothing is held and, short of a wrap, no timer that may still fire is current. */
  lemma ReleaseLeavesNothing(run: seq<Action>, t: nat)
    requires Run(run).Some?
    ensures var before, s := Run(run).value, Release(Run(run).value);
            && s.assertion.None? && s.timer.None?
            && (s.changes < WORD ==> !Current(s, t))
            && (before.assertion.Some? ==> s.released == before.released + [before.assertion.value])
  {
    RunClocked(run);
    var s := Run(run).value;
    if s.changes + 1 < WORD { BumpRetires(s, t); }
  }

  // ---- The intended behaviour ----

  /** No generations: whether sleep is held off, how often it was taken up, and how many timers were started. */
  datatype Intent = Intent(held: bool, taken: nat, started: nat)

  /** Every activity starts the time over; only the last timer started ends it. */
  function IntentNext(m: Intent, a: Action): Intent {
    match a
    case Activity(granted) =>
      if m.held then Intent(true, m.taken, m.started + 1)
      else if granted then Intent(true, m.taken + 1, m.started + 1)
      else m
    case Quiet => Intent(false, m.taken, m.started)
    case Fire(t) => if t + 1 == m.started then Intent(false, m.taken, m.started) else m
  }

  function Intended(run: seq<Action>): Intent {
    if run == [] then Intent(false, 0, 0) else IntentNext(Intended(run[..|run| - 1]), run[|run| - 1])
  }

  /** The state with its generations does as intended. */
  ghost predicate DoesAs(s: Sleep, m: Intent) {
    && m.held == s.assertion.Some? && m.taken == s.created && m.started == |s.timers|
    && (m.held ==> s.assertion == Some(m.taken - 1) && m.started > 0 && s.timer == Some(m.started - 1))
  }

  lemma StepDoesAs(s: Sleep, m: Intent, a: Action)
    requires DoesAs(s, m) && OneTimer(s) && Enabled(s, a)
    ensures DoesAs(Next(s, a), IntentNext(m, a))
  {
    if a.Fire? {
      assert Current(s, a.t) <==> s.timer == Some(a.t);
    }
  }

  /** Short of a wrap the generations carry out the intended behaviour: the same activity, release or timer ends it. */
  lemma {:induction false} RunsAsIntended(run: seq<Action>)
    requires Run(run).Some? && Run(run).value.changes < WORD
    ensures DoesAs(Run(run).value, Intended(run))
  {
    if run != [] {
      var before := run[..|run| - 1];
      ChangesOnlyGrow(Run(before).value, run[|run| - 1]);
      RunsAsIntended(before);
      HeldHasOneTimer(before);
      StepDoesAs(Run(before).value, Intended(before), run[|run| - 1]);
    }
  }

  /** A superseded timer's firing changes nothing but itself, unless a multiple of 2^64 changes lies in between. */
  lemma StaleIsInertIffNoWrap(run: seq<Action>, t: nat)
    requires Run(run).Some? && Enabled(Run(run).value, Fire(t))
    requires Run(run).value.timers[t].armedAt < Run(run).value.changes && Run(run).value.timer.Some?
    ensures var s := Run(run).value;
            Expire(s, t) == s.(timers := s.timers[t := s.timers[t].(spent := true)])
            <==> (s.changes - s.timers[t].armedAt) % WORD != 0
  {
    RunClocked(run);
    var s := Run(run).value;
    SameResidue(s.timers[t].armedAt, s.changes);
  }

  lemma SameResidue(a: nat, b: nat)
    requires a <= b
    ensures a % WORD == b % WORD <==> (b - a) % WORD == 0
  {
    var q, p := a / 0x1_0000_0000_0000_0000, b / 0x1_0000_0000_0000_0000;
    assert b - a == 0x1_0000_0000_0000_0000 * (p - q) + (b % WORD - a % WORD);
  }
}
