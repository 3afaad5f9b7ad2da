/** What a finite request ends with and why, and that the loop works for what was last asked of it. */
module RelayResults {
  import opened RelaySession
  import opened RelayProtocol
  import opened RelayCoverage
  import opened RelayRequests

  // ---- What each actor leaves alone ----

  lemma WriterLeaves(s: State, w: WriterStep)
    requires WriterMay(s, w)
    ensures var t := WriterNext(s, w);
            t.transient == s.transient && t.fetches == s.fetches && t.settled == s.settled
    ensures WriterNext(s, w).desired == if w.SetSubscriptions? then w.subscriptions else s.desired
  {
  }

  lemma PassLeaves(s: State, p: PassStep)
    requires PassMay(s, p)
    ensures var t := PassNext(s, p);
            t.desired == s.desired && t.transient == s.transient && t.fetches == s.fetches && t.settled == s.settled
  {
  }

  lemma FetchLeaves(s: State, f: FetchStep)
    requires FetchMay(s, f)
    ensures FetchNext(s, f).desired == s.desired && FetchNext(s, f).settled == s.settled
  {
  }

  lemma FrameLeaves(s: State, m: FrameStep)
    requires FrameMay(s, m)
    ensures FrameNext(s, m).desired == s.desired && FrameNext(s, m).fetches == s.fetches
  {
  }

  // ---- The loop's side: EOSE succeeds, CLOSED fails ----

  /** EOSE completes a pending request with every verified event taken in for it, in order. */
  lemma EoseSettles(states: seq<State>, actions: seq<Action>, i: nat, id: Id)
    requires Run(states, actions) && i < |actions| && actions[i] == ByFrame(EoseForRequest(id))
    ensures id in states[i + 1].settled && states[i + 1].settled[id] == Fetched(Accepted(actions[..i], id))
    ensures id !in states[i + 1].requests
  {
    PendingHoldsArrivals(states, actions, i, id);
  }

  /** CLOSED completes it as failed, with the relay's words. */
  lemma ClosedSettles(states: seq<State>, actions: seq<Action>, i: nat, id: Id, message: string)
    requires Run(states, actions) && i < |actions| && actions[i] == ByFrame(ClosedForRequest(id, message))
    ensures id in states[i + 1].settled && states[i + 1].settled[id] == Failed("relay closed request: " + message)
    ensures id !in states[i + 1].requests && id !in states[i + 1].open
  {
  }

  predicate Completes(a: Action, id: Id) {
    a.ByFrame? && (a.m.EoseForRequest? || a.m.ClosedForRequest?) && a.m.id == id
  }

  lemma OtherFramesComplete(s: State, m: FrameStep, id: Id)
    requires FrameMay(s, m) && !Completes(ByFrame(m), id) && id in FrameNext(s, m).settled
    ensures id in s.settled && FrameNext(s, m).settled[id] == s.settled[id]
  {
  }

  lemma OnlyFramesComplete(s: State, a: Action, id: Id)
    requires Enabled(s, a) && !Completes(a, id) && id in Next(s, a).settled
    ensures id in s.settled && Next(s, a).settled[id] == s.settled[id]
  {
    match a
    case Tick(_) =>
    case ByWriter(w) => WriterLeaves(s, w);
    case ByFetch(f) => FetchLeaves(s, f);
    case ByPass(p) => PassLeaves(s, p);
    case ByFrame(m) => OtherFramesComplete(s, m, id);
  }

  /** What completed it: an EOSE while it was pending, with the arrivals until then, or a CLOSED. */
  ghost predicate CompletedBy(actions: seq<Action>, k: nat, id: Id, outcome: Outcome)
    requires k < |actions|
  {
    || (actions[k] == ByFrame(EoseForRequest(id)) && outcome == Fetched(Accepted(actions[..k], id)))
    || (actions[k].ByFrame? && actions[k].m.ClosedForRequest? && actions[k].m.id == id
        && outcome == Failed("relay closed request: " + actions[k].m.message))
  }

  lemma {:induction false} ResultHasCause(states: seq<State>, actions: seq<Action>, i: nat, id: Id) returns (k: nat)
    requires Run(states, actions) && i < |states| && id in states[i].settled
    ensures k < i && CompletedBy(actions, k, id, states[i].settled[id]) && id in states[k].requests
  {
    var a := actions[i - 1];
    if Completes(a, id) {
      k := i - 1;
      if a.m.EoseForRequest? {
        EoseSettles(states, actions, k, id);
      } else {
        ClosedSettles(states, actions, k, id, a.m.message);
      }
    } else {
      OnlyFramesComplete(states[i - 1], a, id);
      k := ResultHasCause(states, actions, i - 1, id);
    }
  }

  // ---- The caller's side ----

  lemma NewOutcomeIsResolved(s: State, f: FetchStep, id: Id)
    requires FetchMay(s, f) && id in FetchNext(s, f).fetches && HasOutcome(FetchNext(s, f).fetches[id])
    ensures var o := FetchNext(s, f).fetches[id].outcome;
            f == Resolves(id, o) || (id in s.fetches && HasOutcome(s.fetches[id]) && s.fetches[id].outcome == o)
  {
  }

  lemma OthersLeaveFetches(s: State, a: Action)
    requires Enabled(s, a) && !a.ByFetch?
    ensures Next(s, a).fetches == s.fetches
  {
    match a
    case Tick(_) =>
    case ByWriter(w) => WriterLeaves(s, w);
    case ByPass(p) => PassLeaves(s, p);
    case ByFrame(m) => FrameLeaves(s, m);
  }

  /** A call ends with what it resolved to: the loop's result, or its own timeout or cancellation. */
  lemma {:induction false} OutcomeIsResolved(states: seq<State>, actions: seq<Action>, i: nat, id: Id) returns (k: nat)
    requires Run(states, actions) && i < |states| && id in states[i].fetches && HasOutcome(states[i].fetches[id])
    ensures k < i && actions[k] == ByFetch(Resolves(id, states[i].fetches[id].outcome))
    ensures var o := states[i].fetches[id].outcome; o.Failed? || (id in states[k].settled && states[k].settled[id] == o)
  {
    var s, a := states[i - 1], actions[i - 1];
    if a.ByFetch? {
      NewOutcomeIsResolved(s, a.f, id);
    } else {
      OthersLeaveFetches(s, a);
    }
    if a == ByFetch(Resolves(id, states[i].fetches[id].outcome)) {
      k := i - 1;
    } else {
      k := OutcomeIsResolved(states, actions, i - 1, id);
    }
  }

  /** `fetch_events` returns events only when EOSE came while its request was pending, and then exactly the arrivals. */
  lemma SuccessMeansEose(states: seq<State>, actions: seq<Action>, i: nat, id: Id) returns (k: nat)
    requires Run(states, actions) && i < |states|
    requires id in states[i].fetches && states[i].fetches[id].Done? && states[i].fetches[id].outcome.Fetched?
    ensures k < i && actions[k] == ByFrame(EoseForRequest(id)) && id in states[k].requests
    ensures states[i].fetches[id].outcome == Fetched(Accepted(actions[..k], id))
  {
    var r := OutcomeIsResolved(states, actions, i, id);
    k := ResultHasCause(states, actions, r, id);
  }

  lemma Resolved(s: State, id: Id, outcome: Outcome) returns (t: State)
    requires id in s.fetches && s.fetches[id].Waiting? && id !in s.owing
    requires id in s.settled && s.settled[id] == outcome
    ensures FetchMay(s, Resolves(id, outcome)) && t == FetchNext(s, Resolves(id, outcome))
    ensures id in t.fetches && t.fetches[id] == Leaving(outcome) && t.owing == s.owing
  {
    t := FetchNext(s, Resolves(id, outcome));
  }

  lemma Finished(s: State, id: Id, outcome: Outcome) returns (t: State)
    requires id in s.fetches && s.fetches[id] == Leaving(outcome)
    ensures var s1 := FetchNext(s, Forgets(id));
            && FetchMay(s, Forgets(id)) && FetchMay(s1, Retires(id))
            && FetchMay(FetchNext(s1, Retires(id)), Returns(id))
            && t == FetchNext(FetchNext(s1, Retires(id)), Returns(id))
    ensures id in t.fetches && t.fetches[id] == Done(outcome) && id !in t.requests
  {
    var s1 := FetchNext(s, Forgets(id));
    var s2 := FetchNext(s1, Retires(id));
    t := FetchNext(s2, Returns(id));
  }

  /** And a pending request whose EOSE arrives can always return: the steps that take it there are open to it. */
  lemma EoseLetsCallReturn(states: seq<State>, actions: seq<Action>, i: nat, id: Id) returns (t: State)
    requires Run(states, actions) && i < |actions| && actions[i] == ByFrame(EoseForRequest(id))
    requires var s := states[i + 1]; id in s.fetches && s.fetches[id].Waiting? && id !in s.owing
    ensures var outcome := Fetched(Accepted(actions[..i], id));
            && FetchMay(states[i + 1], Resolves(id, outcome))
            && id in t.fetches && t.fetches[id] == Done(outcome) && id !in t.requests
  {
    EoseSettles(states, actions, i, id);
    var outcome := Fetched(Accepted(actions[..i], id));
    t := Resolved(states[i + 1], id, outcome);
    t := Finished(t, id, outcome);
  }

  // ---- What is wanted is what was asked for ----

  /** The subscriptions of the last `set_subscriptions`. */
  function LastSet(actions: seq<Action>): seq<Subscription> {
    if actions == [] then []
    else
      match actions[|actions| - 1]
      case ByWriter(SetSubscriptions(subs)) => subs
      case _ => LastSet(actions[..|actions| - 1])
  }

  lemma DesiredStep(s: State, a: Action)
    requires Enabled(s, a)
    ensures Next(s, a).desired == if a.ByWriter? && a.w.SetSubscriptions? then a.w.subscriptions else s.desired
  {
    match a
    case Tick(_) =>
    case ByWriter(w) => WriterLeaves(s, w);
    case ByFetch(f) => FetchLeaves(s, f);
    case ByPass(p) => PassLeaves(s, p);
    case ByFrame(m) => FrameLeaves(s, m);
  }

  /** The desired set is always the one last set, however many writes and passes came before. */
  lemma {:induction false} DesiredIsLastSet(states: seq<State>, actions: seq<Action>, i: nat)
    requires Run(states, actions) && i < |states|
    ensures states[i].desired == LastSet(actions[..i])
  {
    if i == 0 {
      assert actions[..0] == [];
    } else {
      DesiredIsLastSet(states, actions, i - 1);
      assert actions[..i][..i - 1] == actions[..i - 1];
      DesiredStep(states[i - 1], actions[i - 1]);
    }
  }

  ghost predicate WasRegistered(actions: seq<Action>, id: Id, filter: Filter) {
    exists k :: 0 <= k < |actions| && actions[k] == ByFetch(Register(id, filter))
  }

  lemma StillRegistered(actions: seq<Action>, a: Action, id: Id, filter: Filter)
    requires WasRegistered(actions, id, filter) || a == ByFetch(Register(id, filter))
    ensures WasRegistered(actions + [a], id, filter)
  {
    if WasRegistered(actions, id, filter) {
      var k :| 0 <= k < |actions| && actions[k] == ByFetch(Register(id, filter));
      assert (actions + [a])[k] == actions[k];
    } else {
      assert (actions + [a])[|actions|] == a;
    }
  }

  /** What a call registered with, and what stands in `transient` for it. */
  ghost predicate AsRegistered(s: State, actions: seq<Action>) {
    && (forall id :: id in s.fetches && s.fetches[id].Registered? ==> WasRegistered(actions, id, s.fetches[id].filter))
    && (forall x :: x in s.transient ==> WasRegistered(actions, x.id, x.filter))
  }

  /** Whatever a step leaves in either place was there, or was registered by it. */
  ghost predicate OnlyRegisters(s: State, t: State, a: Action) {
    && (forall id :: id in t.fetches && t.fetches[id].Registered? ==>
          || (id in s.fetches && s.fetches[id] == t.fetches[id])
          || a == ByFetch(Register(id, t.fetches[id].filter)))
    && (forall x :: x in t.transient ==>
          || x in s.transient
          || (x.id in s.fetches && s.fetches[x.id] == Registered(x.filter)))
  }

  lemma FetchOnlyRegisters(s: State, f: FetchStep)
    requires FetchMay(s, f)
    ensures OnlyRegisters(s, FetchNext(s, f), ByFetch(f))
  {
  }

  lemma FrameOnlyRegisters(s: State, m: FrameStep)
    requires FrameMay(s, m)
    ensures OnlyRegisters(s, FrameNext(s, m), ByFrame(m))
  {
  }

  lemma StepOnlyRegisters(s: State, a: Action)
    requires Enabled(s, a)
    ensures OnlyRegisters(s, Next(s, a), a)
  {
    match a
    case Tick(_) =>
    case ByWriter(w) => WriterLeaves(s, w);
    case ByFetch(f) => FetchOnlyRegisters(s, f);
    case ByPass(p) => PassLeaves(s, p);
    case ByFrame(m) => FrameOnlyRegisters(s, m);
  }

  lemma RegistersCarry(s: State, t: State, actions: seq<Action>, a: Action)
    requires AsRegistered(s, actions) && OnlyRegisters(s, t, a)
    ensures AsRegistered(t, actions + [a])
  {
    forall id | id in t.fetches && t.fetches[id].Registered?
      ensures WasRegistered(actions + [a], id, t.fetches[id].filter)
    {
      StillRegistered(actions, a, id, t.fetches[id].filter);
    }
    forall x | x in t.transient
      ensures WasRegistered(actions + [a], x.id, x.filter)
    {
      StillRegistered(actions, a, x.id, x.filter);
    }
  }

  /** A finite request is asked for under its own id with the filter its caller gave. */
  lemma {:induction false} TransientIsRegistered(states: seq<State>, actions: seq<Action>, i: nat)
    requires Run(states, actions) && i < |states|
    ensures AsRegistered(states[i], actions[..i])
  {
    if i > 0 {
      TransientIsRegistered(states, actions, i - 1);
      StepOnlyRegisters(states[i - 1], actions[i - 1]);
      RegistersCarry(states[i - 1], states[i], actions[..i - 1], actions[i - 1]);
      assert actions[..i] == actions[..i - 1] + [actions[i - 1]];
    }
  }
}
