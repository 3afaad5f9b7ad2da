/**
 Concurrent connects against `disconnect_all`: the gate that serialises registration with teardown,
 and the tasks that leave the connection table on their own.
 */
module TeardownGate {
  import opened Options

  datatype Id = Id(n: nat)

  /** A connection task: in its loop, past the loop with `remove(id)` still to run, or over. */
  datatype Phase = Running | Leaving | Done

  datatype Handle = Handle(id: Id, token: nat, phase: Phase, cancelled: bool)

  /** How far one `open_connection` has come. */
  datatype Dial =
    | Dialling(token: nat)
    | Ready(token: nat)
    | Holding(token: nat)
    | Picked(token: nat, id: Id)
    | Entered
    | Opened
    | Refused

  /** Who holds the `connect_cancel` lock; a teardown goes through its stages while it holds it. */
  datatype Gate = Free | Connecting(c: nat) | Locked | TokenCancelled | TokenReplaced | Joining(waiting: set<nat>)

  datatype State = State(
    gate: Gate,
    token: nat,
    cancelled: set<nat>,
    dials: map<nat, Dial>,
    handles: seq<Handle>,
    connections: map<Id, nat>,
    closing: set<nat>,  // taken out of the table, not yet told to stop
    cutOff: set<nat>)   // dropped from the table, and the only sender into their loop with it

  const INIT := State(Free, 0, {}, map[], [], map[], {}, {})

  // ---- Steps ----

  datatype DialStep = TakeToken | Handshake | GiveUp | Lock | TurnAway | Pick(id: Id) | Insert | Release

  datatype TaskStep = CancelHandle | Leave | Remove | Abort

  datatype TeardownStep = LockGate | CancelToken | ReplaceToken | Drain | Unlock

  datatype Action =
    | Connect(c: nat, step: DialStep)
    | Task(h: nat, t: TaskStep)
    | Teardown(d: TeardownStep)
    | Disconnect(id: Id)

  predicate DialMay(s: State, c: nat, a: DialStep) {
    match a
    case TakeToken => c !in s.dials && s.gate.Free?
    case Handshake => c in s.dials && s.dials[c].Dialling?
    case GiveUp => c in s.dials && s.dials[c].Dialling?
    case Lock => c in s.dials && s.dials[c].Ready? && s.gate.Free?
    case TurnAway => c in s.dials && s.dials[c].Holding? && s.dials[c].token in s.cancelled
    case Pick(id) => c in s.dials && s.dials[c].Holding? && s.dials[c].token !in s.cancelled && id !in s.connections
    case Insert => c in s.dials && s.dials[c].Picked?
    case Release => c in s.dials && s.dials[c].Entered?
  }

  function DialNext(s: State, c: nat, a: DialStep): State
    requires DialMay(s, c, a)
  {
    match a
    case TakeToken => s.(dials := s.dials[c := Dialling(s.token)])
    case Handshake => s.(dials := s.dials[c := Ready(s.dials[c].token)])
    case GiveUp => s.(dials := s.dials[c := Refused])
    case Lock => s.(gate := Connecting(c), dials := s.dials[c := Holding(s.dials[c].token)])
    case TurnAway => s.(gate := Free, dials := s.dials[c := Refused])
    case Pick(id) => s.(dials := s.dials[c := Picked(s.dials[c].token, id)])
    case Insert =>
      var Picked(token, id) := s.dials[c];
      s.(dials := s.dials[c := Entered],
         handles := s.handles + [Handle(id, token, Running, false)],
         connections := s.connections[id := |s.handles|])
    case Release => s.(gate := Free, dials := s.dials[c := Opened])
  }

  predicate TaskMay(s: State, h: nat, a: TaskStep) {
    && h < |s.handles|
    && match a
       case CancelHandle => h in s.closing
       case Leave => s.handles[h].phase.Running?
       case Remove => s.handles[h].phase.Leaving?
       case Abort => s.handles[h].cancelled && !s.handles[h].phase.Done?
  }

  /** `remove(id)` takes out whatever stands at the id by then; its loop reads the closed channel and ends. */
  function TaskNext(s: State, h: nat, a: TaskStep): State
    requires TaskMay(s, h, a)
  {
    match a
    case CancelHandle =>
      s.(handles := s.handles[h := s.handles[h].(cancelled := true)], closing := s.closing - {h})
    case Leave => s.(handles := s.handles[h := s.handles[h].(phase := Leaving)])
    case Remove =>
      var id := s.handles[h].id;
      s.(handles := s.handles[h := s.handles[h].(phase := Done)],
         connections := s.connections - {id},
         cutOff := if id in s.connections then s.cutOff + {s.connections[id]} else s.cutOff)
    case Abort => s.(handles := s.handles[h := s.handles[h].(phase := Done)])
  }

  predicate TeardownMay(s: State, a: TeardownStep) {
    match a
    case LockGate => s.gate.Free?
    case CancelToken => s.gate.Locked?
    case ReplaceToken => s.gate.TokenCancelled?
    case Drain => s.gate.TokenReplaced?
    case Unlock =>
      && s.gate.Joining?
      && s.gate.waiting !! s.closing
      && forall h :: h in s.gate.waiting && h < |s.handles| ==> s.handles[h].phase.Done?
  }

  function TeardownNext(s: State, a: TeardownStep): State
    requires TeardownMay(s, a)
  {
    match a
    case LockGate => s.(gate := Locked)
    case CancelToken => s.(gate := TokenCancelled, cancelled := s.cancelled + {s.token})
    case ReplaceToken => s.(gate := TokenReplaced, token := s.token + 1)
    case Drain =>
      s.(gate := Joining(s.connections.Values), connections := map[], closing := s.closing + s.connections.Values)
    case Unlock => s.(gate := Free)
  }

  function DisconnectNext(s: State, id: Id): State
    requires id in s.connections
  {
    s.(connections := s.connections - {id}, closing := s.closing + {s.connections[id]})
  }

  predicate Enabled(s: State, a: Action) {
    match a
    case Connect(c, step) => DialMay(s, c, step)
    case Task(h, t) => TaskMay(s, h, t)
    case Teardown(d) => TeardownMay(s, d)
    case Disconnect(id) => id in s.connections
  }

  function Next(s: State, a: Action): State
    requires Enabled(s, a)
  {
    match a
    case Connect(c, step) => DialNext(s, c, step)
    case Task(h, t) => TaskNext(s, h, t)
    case Teardown(d) => TeardownNext(s, d)
    case Disconnect(id) => DisconnectNext(s, id)
  }

  /** The state after a run, if every step of it was possible. */
  function Run(s: State, run: seq<Action>): Option<State>
    decreases |run|
  {
    if run == [] then Some(s)
    else if Enabled(s, run[0]) then Run(Next(s, run[0]), run[1..])
    else None
  }

  // ---- What every run keeps ----

  predicate HoldsGate(d: Dial) { d.Holding? || d.Picked? || d.Entered? }

  /** The cancelled tokens are exactly the replaced ones. */
  ghost predicate TokensKept(s: State) {
    && (forall t :: t in s.cancelled <==> 0 <= t < s.token || (t == s.token && s.gate.TokenCancelled?))
    && (forall c :: c in s.dials && (s.dials[c].Dialling? || s.dials[c].Ready? || s.dials[c].Holding?)
          ==> s.dials[c].token <= s.token)
  }

  ghost predicate GateKept(s: State) {
    && (forall c :: c in s.dials && HoldsGate(s.dials[c]) ==> s.gate == Connecting(c))
    && (s.gate.Connecting? ==> s.gate.c in s.dials && HoldsGate(s.dials[s.gate.c]))
    && (forall c :: c in s.dials && s.dials[c].Picked? ==>
          s.dials[c].token == s.token && s.dials[c].id !in s.connections)
  }

  /** While nobody tears down, the table holds only sockets of the current token. */
  ghost predicate TableKept(s: State) {
    forall id :: id in s.connections ==>
      var h := s.connections[id];
      && h < |s.handles|
      && s.handles[h].id == id
      && s.handles[h].token + (if s.gate.TokenReplaced? then 1 else 0) == s.token
  }

  ghost predicate OthersKept(s: State) {
    && (forall h :: h in s.closing ==> h < |s.handles|)
    && (forall h :: h in s.cutOff ==> h < |s.handles|)
    && (forall h :: 0 <= h < |s.handles| ==> s.handles[h].token <= s.token)
    && (forall id :: id in s.connections ==> s.connections[id] !in s.closing && Untold(s, s.connections[id]))
    && (s.gate.Joining? ==> s.connections == map[])
  }

  predicate Untold(s: State, h: nat) { h < |s.handles| ==> !s.handles[h].cancelled }

  ghost predicate Inv(s: State) { TokensKept(s) && GateKept(s) && TableKept(s) && OthersKept(s) }

  lemma InsertKeepsInv(s: State, c: nat)
    requires Inv(s) && DialMay(s, c, Insert)
    ensures Inv(DialNext(s, c, Insert))
  {
  }

  lemma PickKeepsInv(s: State, c: nat, id: Id)
    requires Inv(s) && DialMay(s, c, Pick(id))
    ensures Inv(DialNext(s, c, Pick(id)))
  {
  }

  lemma GateStepKeepsInv(s: State, c: nat, a: DialStep)
    requires Inv(s) && DialMay(s, c, a) && (a.Lock? || a.TurnAway? || a.Release?)
    ensures Inv(DialNext(s, c, a))
  {
  }

  lemma DialKeepsInv(s: State, c: nat, a: DialStep)
    requires Inv(s) && DialMay(s, c, a)
    ensures Inv(DialNext(s, c, a))
  {
    match a
    case Pick(id) => PickKeepsInv(s, c, id);
    case Insert => InsertKeepsInv(s, c);
    case Lock => GateStepKeepsInv(s, c, a);
    case TurnAway => GateStepKeepsInv(s, c, a);
    case Release => GateStepKeepsInv(s, c, a);
    case _ =>
  }

  lemma RemoveKeepsInv(s: State, h: nat)
    requires Inv(s) && TaskMay(s, h, Remove)
    ensures Inv(TaskNext(s, h, Remove))
  {
  }

  lemma CancelKeepsInv(s: State, h: nat)
    requires Inv(s) && TaskMay(s, h, CancelHandle)
    ensures Inv(TaskNext(s, h, CancelHandle))
  {
  }

  lemma TaskKeepsInv(s: State, h: nat, a: TaskStep)
    requires Inv(s) && TaskMay(s, h, a)
    ensures Inv(TaskNext(s, h, a))
  {
    match a
    case Remove => RemoveKeepsInv(s, h);
    case CancelHandle => CancelKeepsInv(s, h);
    case _ =>
  }

  lemma TeardownKeepsInv(s: State, a: TeardownStep)
    requires Inv(s) && TeardownMay(s, a)
    ensures Inv(TeardownNext(s, a))
  {
  }

  lemma StepKeepsInv(s: State, a: Action)
    requires Inv(s) && Enabled(s, a)
    ensures Inv(Next(s, a))
  {
    match a
    case Connect(c, step) => DialKeepsInv(s, c, step);
    case Task(h, t) => TaskKeepsInv(s, h, t);
    case Teardown(d) => TeardownKeepsInv(s, d);
    case Disconnect(id) =>
  }

  lemma {:induction false} RunKeepsInv(s: State, run: seq<Action>)
    requires Inv(s) && Run(s, run).Some?
    ensures Inv(Run(s, run).value)
    decreases |run|
  {
    if run != [] {
      StepKeepsInv(s, run[0]);
      RunKeepsInv(Next(s, run[0]), run[1..]);
    }
  }

  /** In every run, whenever the gate is free, every registered socket carries the current, uncancelled token. */
  lemma RegisteredIsCurrent(run: seq<Action>, id: Id)
    requires Run(INIT, run).Some?
    requires var s := Run(INIT, run).value; s.gate.Free? && id in s.connections
    ensures var s := Run(INIT, run).value;
            && s.connections[id] < |s.handles|
            && s.handles[s.connections[id]].token == s.token
            && s.token !in s.cancelled
  {
    RunKeepsInv(INIT, run);
  }

  /** Registration is refused to a connect that took its token before a teardown, and never overwrites an entry. */
  lemma RegistersOnlyCurrent(run: seq<Action>, c: nat)
    requires Run(INIT, run).Some?
    requires DialMay(Run(INIT, run).value, c, Insert)
    ensures var s := Run(INIT, run).value;
            s.dials[c].token == s.token && s.token !in s.cancelled && s.dials[c].id !in s.connections
  {
    RunKeepsInv(INIT, run);
  }

  // ---- Teardown misses nothing ----

  predicate Registered(s: State, h: nat)
    requires h < |s.handles|
  {
    s.handles[h].id in s.connections && s.connections[s.handles[h].id] == h
  }

  /** Someone has stopped it or is about to: cancelled, taken out to be cancelled, or without a sender. */
  predicate Stopped(s: State, h: nat)
    requires h < |s.handles|
  {
    s.handles[h].cancelled || h in s.closing || h in s.cutOff
  }

  /** Every unfinished socket is in the table or being stopped. */
  ghost predicate Accounted(s: State) {
    forall h :: 0 <= h < |s.handles| ==> s.handles[h].phase.Done? || Stopped(s, h) || Registered(s, h)
  }

  lemma DialKeepsAccounted(s: State, c: nat, a: DialStep)
    requires Inv(s) && DialMay(s, c, a) && Accounted(s)
    ensures Accounted(DialNext(s, c, a))
  {
  }

  lemma TaskKeepsAccounted(s: State, k: nat, a: TaskStep)
    requires Inv(s) && TaskMay(s, k, a) && Accounted(s)
    ensures Accounted(TaskNext(s, k, a))
  {
  }

  lemma TeardownKeepsAccounted(s: State, a: TeardownStep)
    requires Inv(s) && TeardownMay(s, a) && Accounted(s)
    ensures Accounted(TeardownNext(s, a))
  {
    if a.Drain? {
      forall h | 0 <= h < |s.handles| && Registered(s, h)
        ensures h in s.connections.Values
      {
        assert s.handles[h].id in s.connections.Keys;
      }
    }
  }

  lemma StepKeepsAccounted(s: State, a: Action)
    requires Inv(s) && Enabled(s, a) && Accounted(s)
    ensures Accounted(Next(s, a))
  {
    match a
    case Connect(c, step) => DialKeepsAccounted(s, c, step);
    case Task(k, t) => TaskKeepsAccounted(s, k, t);
    case Teardown(d) => TeardownKeepsAccounted(s, d);
    case Disconnect(id) =>
  }

  lemma {:induction false} RunKeepsAccounted(s: State, run: seq<Action>)
    requires Inv(s) && Run(s, run).Some? && Accounted(s)
    ensures Accounted(Run(s, run).value)
    decreases |run|
  {
    if run != [] {
      StepKeepsInv(s, run[0]);
      StepKeepsAccounted(s, run[0]);
      RunKeepsAccounted(Next(s, run[0]), run[1..]);
    }
  }

  /**
   In every run, whenever no teardown holds the gate, every socket is over, being stopped, or registered
   under the current token; so of the sockets older than the last teardown none runs on unasked.
   */
  lemma TeardownMissesNothing(run: seq<Action>, h: nat)
    requires Run(INIT, run).Some?
    requires Run(INIT, run).value.gate.Free? && h < |Run(INIT, run).value.handles|
    ensures var s := Run(INIT, run).value;
            || s.handles[h].phase.Done?
            || Stopped(s, h)
            || (Registered(s, h) && s.handles[h].token == s.token)
    ensures var s := Run(INIT, run).value;
            s.handles[h].token < s.token ==> s.handles[h].phase.Done? || Stopped(s, h)
  {
    RunKeepsInv(INIT, run);
    RunKeepsAccounted(INIT, run);
  }

  // ---- Cut off by another task ----

  /** No unfinished task carries this id. */
  predicate Unused(s: State, id: Id) {
    forall k :: 0 <= k < |s.handles| && s.handles[k].id == id ==> s.handles[k].phase.Done?
  }

  /** Lost its sender in mid-run, to the removal some other task made. */
  predicate CutShort(s: State, h: nat)
    requires h < |s.handles|
  {
    h in s.cutOff && s.handles[h].phase.Running?
  }

  /** Nobody but `h` itself can take `h` out of the table by its id. */
  ghost predicate SoleUser(s: State, h: nat)
    requires h < |s.handles|
  {
    && (h in s.cutOff ==> s.handles[h].phase.Done?)
    && (Registered(s, h) ==>
          forall k :: 0 <= k < |s.handles| && k != h && s.handles[k].id == s.handles[h].id ==> s.handles[k].phase.Done?)
  }

  lemma StepOnlyAdds(s: State, a: Action)
    requires Enabled(s, a)
    ensures |s.handles| <= |Next(s, a).handles|
  {
  }

  lemma DialKeepsSoleUser(s: State, c: nat, a: DialStep, h: nat)
    requires Inv(s) && DialMay(s, c, a) && h < |s.handles| && SoleUser(s, h)
    ensures SoleUser(DialNext(s, c, a), h)
  {
  }

  lemma TaskKeepsSoleUser(s: State, k: nat, a: TaskStep, h: nat)
    requires Inv(s) && TaskMay(s, k, a) && h < |s.handles| && SoleUser(s, h)
    ensures SoleUser(TaskNext(s, k, a), h)
  {
  }

  lemma StepKeepsSoleUser(s: State, a: Action, h: nat)
    requires Inv(s) && Enabled(s, a) && h < |s.handles| && SoleUser(s, h)
    ensures h < |Next(s, a).handles| && SoleUser(Next(s, a), h)
  {
    StepOnlyAdds(s, a);
    match a
    case Connect(c, step) => DialKeepsSoleUser(s, c, step, h);
    case Task(k, t) => TaskKeepsSoleUser(s, k, t, h);
    case _ =>
  }

  lemma {:induction false} RunKeepsSoleUser(s: State, run: seq<Action>, h: nat)
    requires Inv(s) && Run(s, run).Some? && h < |s.handles| && SoleUser(s, h)
    ensures h < |Run(s, run).value.handles| && SoleUser(Run(s, run).value, h)
    decreases |run|
  {
    if run != [] {
      StepKeepsInv(s, run[0]);
      StepKeepsSoleUser(s, run[0], h);
      RunKeepsSoleUser(Next(s, run[0]), run[1..], h);
    }
  }

  ghost predicate CutsShort(s: State, h: nat, run: seq<Action>) {
    Run(s, run).Some? && h < |Run(s, run).value.handles| && CutShort(Run(s, run).value, h)
  }

  ghost predicate MayBeCutShort(s: State, h: nat) { exists run :: CutsShort(s, h, run) }

  lemma ReuseCutsShort(s: State, c: nat, k: nat)
    requires Inv(s) && DialMay(s, c, Insert)
    requires k < |s.handles| && s.handles[k].id == s.dials[c].id && !s.handles[k].phase.Done?
    ensures MayBeCutShort(DialNext(s, c, Insert), |s.handles|)
  {
    var s0 := DialNext(s, c, Insert);
    var last := Task(k, Remove);
    if s.handles[k].phase.Running? {
      var s1 := TaskNext(s0, k, Leave);
      assert Run(s1, [last]) == Some(TaskNext(s1, k, Remove));
      assert [Task(k, Leave), last][1..] == [last];
      assert CutsShort(s0, |s.handles|, [Task(k, Leave), last]);
    } else {
      assert CutsShort(s0, |s.handles|, [last]);
    }
  }

  /**
   A new connection can be ended by a task that is not its own exactly when its random id is still
   carried by an unfinished task: registration checks the table, which that task has already left.
   */
  lemma CutShortIffIdReused(run: seq<Action>, c: nat)
    requires Run(INIT, run).Some?
    requires DialMay(Run(INIT, run).value, c, Insert)
    ensures var s := Run(INIT, run).value;
            MayBeCutShort(DialNext(s, c, Insert), |s.handles|) <==> !Unused(s, s.dials[c].id)
  {
    RunKeepsInv(INIT, run);
    var s := Run(INIT, run).value;
    var s0, h := DialNext(s, c, Insert), |s.handles|;
    if Unused(s, s.dials[c].id) {
      InsertKeepsInv(s, c);
      assert SoleUser(s0, h);
      forall more | CutsShort(s0, h, more)
        ensures false
      {
        RunKeepsSoleUser(s0, more, h);
      }
    } else {
      var k :| 0 <= k < |s.handles| && s.handles[k].id == s.dials[c].id && !s.handles[k].phase.Done?;
      ReuseCutsShort(s, c, k);
    }
  }
}
