/** What comes of a connect and of a teardown: who gets in, whom the teardown waits for, and that it can end. */
module TeardownOutcomes {
  import opened Options
  import opened TeardownGate

  lemma RunOne(s: State, a: Action, rest: seq<Action>)
    ensures Run(s, [a] + rest) == if Enabled(s, a) then Run(Next(s, a), rest) else None
  {
    assert ([a] + rest)[1..] == rest;
  }

  // ---- Connecting ----

  /** What a connect leaves once it is through: its socket under the id it picked, and the gate free again. */
  function Connected(s: State, c: nat, id: Id, token: nat): State {
    s.(dials := s.dials[c := Opened],
       handles := s.handles + [Handle(id, token, Running, false)],
       connections := s.connections[id := |s.handles|])
  }

  lemma CurrentGoesThrough(s: State, c: nat, id: Id)
    requires Inv(s) && c in s.dials && s.dials[c] == Ready(s.token) && s.gate.Free? && id !in s.connections
    ensures Run(s, [Connect(c, Lock)] + ([Connect(c, Pick(id))] + ([Connect(c, Insert)] + [Connect(c, Release)])))
            == Some(Connected(s, c, id, s.token))
  {
    var s1 := DialNext(s, c, Lock);
    var s2 := DialNext(s1, c, Pick(id));
    var s3 := DialNext(s2, c, Insert);
    RunOne(s, Connect(c, Lock), [Connect(c, Pick(id))] + ([Connect(c, Insert)] + [Connect(c, Release)]));
    RunOne(s1, Connect(c, Pick(id)), [Connect(c, Insert)] + [Connect(c, Release)]);
    RunOne(s2, Connect(c, Insert), [Connect(c, Release)]);
    RunOne(s3, Connect(c, Release), []);
    assert [Connect(c, Release)] + [] == [Connect(c, Release)];
    assert DialNext(s3, c, Release) == Connected(s, c, id, s.token);
  }

  /** A connect whose handshake is done gets in if and only if no teardown came since it took its token. */
  lemma ConnectsIffCurrent(run: seq<Action>, c: nat, id: Id)
    requires Run(INIT, run).Some?
    requires var s := Run(INIT, run).value; s.gate.Free? && c in s.dials && s.dials[c].Ready? && id !in s.connections
    ensures var s := Run(INIT, run).value;
            var held := DialNext(s, c, Lock);
            && (DialMay(held, c, Pick(id)) <==> s.dials[c].token == s.token)
            && (DialMay(held, c, TurnAway) <==> s.dials[c].token < s.token)
            && DialMay(held, c, TurnAway) != DialMay(held, c, Pick(id))
            && (s.dials[c].token == s.token ==>
                  Run(s, [Connect(c, Lock)] + ([Connect(c, Pick(id))] + ([Connect(c, Insert)] + [Connect(c, Release)])))
                  == Some(Connected(s, c, id, s.token)))
            && (s.dials[c].token < s.token ==> DialNext(held, c, TurnAway) == s.(dials := s.dials[c := Refused]))
  {
    RunKeepsInv(INIT, run);
    var s := Run(INIT, run).value;
    if s.dials[c].token == s.token {
      CurrentGoesThrough(s, c, id);
    }
  }

  /** The connects that have a socket to show for it. */
  function Successes(dials: map<nat, Dial>): set<nat> { set c | c in dials && Succeeded(dials[c]) }

  predicate Succeeded(d: Dial) { d.Entered? || d.Opened? }

  lemma DialCounts(s: State, c: nat, a: DialStep)
    requires DialMay(s, c, a) && |Successes(s.dials)| == |s.handles|
    ensures |Successes(DialNext(s, c, a).dials)| == |DialNext(s, c, a).handles|
  {
    var d := DialNext(s, c, a).dials[c];
    assert DialNext(s, c, a).dials == s.dials[c := d];
    SuccessesUpdate(s.dials, c, d);
  }

  lemma SuccessesUpdate(dials: map<nat, Dial>, c: nat, d: Dial)
    ensures c !in Successes(dials) && Succeeded(d) ==> |Successes(dials[c := d])| == |Successes(dials)| + 1
    ensures (c in Successes(dials) <==> Succeeded(d)) ==> |Successes(dials[c := d])| == |Successes(dials)|
  {
    if c !in Successes(dials) && Succeeded(d) {
      assert Successes(dials[c := d]) == Successes(dials) + {c};
    } else if c in Successes(dials) <==> Succeeded(d) {
      assert Successes(dials[c := d]) == Successes(dials);
    }
  }

  /** Over every run each socket is the success of one connect: none is reported without one, and none is unreported. */
  lemma {:induction false} OneSocketPerSuccess(s: State, run: seq<Action>)
    requires |Successes(s.dials)| == |s.handles| && Run(s, run).Some?
    ensures |Successes(Run(s, run).value.dials)| == |Run(s, run).value.handles|
    decreases |run|
  {
    if run != [] {
      if run[0].Connect? {
        DialCounts(s, run[0].c, run[0].step);
      }
      OneSocketPerSuccess(Next(s, run[0]), run[1..]);
    }
  }

  // ---- Leaving the table ----

  /** A registered socket's task has not finished. */
  ghost predicate TableAlive(s: State) {
    forall id :: id in s.connections && s.connections[id] < |s.handles| ==> !s.handles[s.connections[id]].phase.Done?
  }

  lemma TaskKeepsAlive(s: State, h: nat, a: TaskStep)
    requires Inv(s) && TableAlive(s) && TaskMay(s, h, a)
    ensures TableAlive(TaskNext(s, h, a))
  {
  }

  lemma StepKeepsAlive(s: State, a: Action)
    requires Inv(s) && TableAlive(s) && Enabled(s, a)
    ensures TableAlive(Next(s, a))
  {
    match a
    case Task(h, t) => TaskKeepsAlive(s, h, t);
    case _ =>
  }

  lemma {:induction false} RunKeepsAlive(s: State, run: seq<Action>)
    requires Inv(s) && TableAlive(s) && Run(s, run).Some?
    ensures TableAlive(Run(s, run).value)
    decreases |run|
  {
    if run != [] {
      StepKeepsInv(s, run[0]);
      StepKeepsAlive(s, run[0]);
      RunKeepsAlive(Next(s, run[0]), run[1..]);
    }
  }

  /** In every run a finished socket is out of the table, however it finished. */
  lemma FinishedIsUnregistered(run: seq<Action>, h: nat)
    requires Run(INIT, run).Some? && h < |Run(INIT, run).value.handles|
    requires Run(INIT, run).value.handles[h].phase.Done?
    ensures !Registered(Run(INIT, run).value, h)
  {
    RunKeepsAlive(INIT, run);
  }

  // ---- Tearing down ----

  /** Whom a teardown waits for has been stopped, or is about to be. */
  ghost predicate WaitsForStopped(s: State) {
    s.gate.Joining? ==>
      forall h :: h in s.gate.waiting ==>
        h < |s.handles| && (s.handles[h].phase.Done? || s.handles[h].cancelled || h in s.closing)
  }

  lemma DialKeepsWaits(s: State, c: nat, a: DialStep)
    requires Inv(s) && WaitsForStopped(s) && DialMay(s, c, a)
    ensures WaitsForStopped(DialNext(s, c, a))
  {
  }

  lemma TaskKeepsWaits(s: State, h: nat, a: TaskStep)
    requires Inv(s) && WaitsForStopped(s) && TaskMay(s, h, a)
    ensures WaitsForStopped(TaskNext(s, h, a))
  {
  }

  lemma StepKeepsWaits(s: State, a: Action)
    requires Inv(s) && WaitsForStopped(s) && Enabled(s, a)
    ensures WaitsForStopped(Next(s, a))
  {
    match a
    case Connect(c, step) => DialKeepsWaits(s, c, step);
    case Task(h, t) => TaskKeepsWaits(s, h, t);
    case Teardown(d) =>
    case Disconnect(id) =>
  }

  lemma {:induction false} RunKeepsWaits(s: State, run: seq<Action>)
    requires Inv(s) && WaitsForStopped(s) && Run(s, run).Some?
    ensures WaitsForStopped(Run(s, run).value)
    decreases |run|
  {
    if run != [] {
      StepKeepsInv(s, run[0]);
      StepKeepsWaits(s, run[0]);
      RunKeepsWaits(Next(s, run[0]), run[1..]);
    }
  }

  /** A teardown that waits is never stuck: it can finish, or a socket it waits for can be cancelled or aborted. */
  lemma TeardownCanEnd(run: seq<Action>)
    requires Run(INIT, run).Some? && Run(INIT, run).value.gate.Joining?
    ensures var s := Run(INIT, run).value;
            || TeardownMay(s, Unlock)
            || exists h :: h in s.gate.waiting && (TaskMay(s, h, CancelHandle) || TaskMay(s, h, Abort))
  {
    RunKeepsInv(INIT, run);
    RunKeepsWaits(INIT, run);
    var s := Run(INIT, run).value;
    if !TeardownMay(s, Unlock) {
      var h :| h in s.gate.waiting && h < |s.handles| && (h in s.closing || !s.handles[h].phase.Done?);
      assert TaskMay(s, h, CancelHandle) || TaskMay(s, h, Abort);
    }
  }

  lemma {:induction false} JoiningUntilUnlocked(s: State, run: seq<Action>)
    requires Inv(s) && s.gate.Joining? && Run(s, run).Some? && Teardown(Unlock) !in run
    ensures Run(s, run).value.gate == s.gate
    decreases |run|
  {
    if run != [] {
      StepKeepsInv(s, run[0]);
      assert run[0] != Teardown(Unlock);
      JoiningUntilUnlocked(Next(s, run[0]), run[1..]);
    }
  }

  /** When a teardown lets go of the gate, every socket that was registered when it drained the table is over. */
  lemma TeardownWaitsForAll(run: seq<Action>, more: seq<Action>, id: Id)
    requires Run(INIT, run).Some? && TeardownMay(Run(INIT, run).value, Drain)
    requires var s := Run(INIT, run).value;
             && id in s.connections
             && Run(TeardownNext(s, Drain), more).Some? && Teardown(Unlock) !in more
             && TeardownMay(Run(TeardownNext(s, Drain), more).value, Unlock)
    ensures var s := Run(INIT, run).value;
            var e := Run(TeardownNext(s, Drain), more).value;
            s.connections[id] < |e.handles| && e.handles[s.connections[id]].phase.Done?
  {
    RunKeepsInv(INIT, run);
    var s := Run(INIT, run).value;
    var d := TeardownNext(s, Drain);
    TeardownKeepsInv(s, Drain);
    assert s.connections[id] in s.connections.Values;
    JoiningUntilUnlocked(d, more);
    RunKeepsWaits(d, more);
  }
}
