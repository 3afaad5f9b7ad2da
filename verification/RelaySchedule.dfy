/**
 The other half of the discipline: a CLOSED holds its id back for exactly as long as its class, its place in the
 row and its hint say, and when that time is up the timer leads to the REQ.
 */
module RelaySchedule {
  import opened Options
  import opened RelayClosed
  import opened RelaySession
  import opened RelayProtocol
  import opened RelayCoverage
  import opened RelayDiscipline
  import opened RelayPass

  // ---- The wait a CLOSED imposes ----

  /**
   The wait, written out: min(2^(k-1), 30) seconds for the k-th in a row; when rate-limited at least the hint, or
   10.
   */
  function WaitFor(message: string, k: nat): nat
    requires k > 0
  {
    var backoff := 1000 * (if Pow2(k - 1) < 30 then Pow2(k - 1) else 30);
    if Classify(message).RateLimited? then
      match RetryInSeconds(message)
      case Some(hint) => if 1000 * hint > backoff then 1000 * hint else backoff
      case None => if 10000 > backoff then 10000 else backoff
    else backoff
  }

  lemma BackoffWrittenOut(k: nat)
    ensures Backoff(k) == 1000 * (if Pow2(k) < 30 then Pow2(k) else 30)
  {
    BackoffIsCappedPowerOfTwo(k);
  }

  lemma WaitIsDelay(message: string, k: nat)
    requires k > 0
    ensures Delay(message, k - 1) == WaitFor(message, k)
  {
    BackoffWrittenOut(k - 1);
  }

  /** What a CLOSED after `k` others in a row makes of the entry. */
  lemma ScheduleIs(entry: ClosedRetry, k: nat, message: string, now: nat)
    requires entry.attempts == Min(k, U32_MAX)
    ensures var e, final := entry.Schedule(message, now), Classify(message).Terminal?;
            && (final ==> e.terminal && e.dueAt.None?)
            && (!final ==> e.terminal == entry.terminal && e.dueAt == Some(now + WaitFor(message, k + 1)))
  {
    DelaySaturates(message, k);
    WaitIsDelay(message, k + 1);
  }

  lemma ClosedMakesEntry(s: State, id: Id, message: string)
    requires FrameMay(s, ClosedForSubscription(id, message))
    ensures var t := FrameNext(s, ClosedForSubscription(id, message));
            id in t.retries && t.retries[id] == RetryEntry(s, id).Schedule(message, s.now) && id !in t.open
  {
  }

  lemma AttemptsCounted(states: seq<State>, actions: seq<Action>, n: nat, id: Id)
    requires Run(states, actions) && n < |states| && !states[n].pc.Down?
    ensures RetryEntry(states[n], id).attempts == Min(Streak(states[n].log, id), U32_MAX)
  {
    EveryRunKeepsDiscipline(states, actions, n);
    assert CountOk(states[n].log, states[n].retries, id);
  }

  /** A CLOSED that is not terminal is always given a time to reopen. */
  lemma ClosedIsScheduled(states: seq<State>, actions: seq<Action>, n: nat, id: Id, message: string)
    requires Run(states, actions) && n < |actions| && actions[n] == ByFrame(ClosedForSubscription(id, message))
    ensures var s, t := states[n], states[n + 1];
            && id in t.retries && id !in t.open
            && (Classify(message).Terminal? ==> t.retries[id].terminal && t.retries[id].dueAt.None?)
            && (!Classify(message).Terminal? ==>
                  t.retries[id].dueAt == Some(s.now + WaitFor(message, Streak(s.log, id) + 1)))
  {
    AttemptsCounted(states, actions, n, id);
    ClosedMakesEntry(states[n], id, message);
    ScheduleIs(RetryEntry(states[n], id), Streak(states[n].log, id), message, states[n].now);
  }

  // ---- Every entry comes from the last CLOSED ----

  predicate IsClosedOf(a: Action, id: Id) { a.ByFrame? && a.m.ClosedForSubscription? && a.m.id == id }

  /** The entry as it was, or with a wait that is over taken off. */
  predicate SameOrElapsed(entry: ClosedRetry, before: ClosedRetry) {
    entry == before || entry == before.(dueAt := None)
  }

  lemma PassKeepsEntry(s: State, p: PassStep, id: Id)
    requires PassMay(s, p) && id in PassNext(s, p).retries
    ensures id in s.retries && SameOrElapsed(PassNext(s, p).retries[id], s.retries[id])
  {
  }

  lemma FrameKeepsEntry(s: State, m: FrameStep, id: Id)
    requires FrameMay(s, m) && id in FrameNext(s, m).retries && !IsClosedOf(ByFrame(m), id)
    ensures id in s.retries && FrameNext(s, m).retries[id] == s.retries[id]
  {
  }

  lemma CallersLeaveEntries(s: State, a: Action)
    requires Enabled(s, a) && (a.ByWriter? || a.ByFetch?)
    ensures Next(s, a).retries == s.retries
  {
    match a
    case ByWriter(w) => WriterLeavesEntries(s, w);
    case ByFetch(f) => FetchLeavesEntries(s, f);
  }

  lemma WriterLeavesEntries(s: State, w: WriterStep)
    requires WriterMay(s, w)
    ensures WriterNext(s, w).retries == s.retries
  {
  }

  lemma FetchLeavesEntries(s: State, f: FetchStep)
    requires FetchMay(s, f)
    ensures FetchNext(s, f).retries == s.retries
  {
  }

  lemma StepKeepsEntry(s: State, a: Action, id: Id)
    requires Enabled(s, a) && id in Next(s, a).retries && !IsClosedOf(a, id)
    ensures id in s.retries && SameOrElapsed(Next(s, a).retries[id], s.retries[id])
  {
    match a
    case Tick(_) =>
    case ByWriter(_) => CallersLeaveEntries(s, a);
    case ByFetch(_) => CallersLeaveEntries(s, a);
    case ByPass(p) => PassKeepsEntry(s, p, id);
    case ByFrame(m) => FrameKeepsEntry(s, m, id);
  }

  /** From the CLOSED at `k` on the id has had its entry, and no other CLOSED. */
  ghost predicate SinceClosed(states: seq<State>, actions: seq<Action>, k: nat, n: nat, id: Id)
    requires k < n < |states| == |actions| + 1
  {
    && IsClosedOf(actions[k], id)
    && (forall j :: k < j <= n ==> id in states[j].retries)
    && (forall j :: k < j < n ==> !IsClosedOf(actions[j], id))
  }

  lemma RunKeepsEntry(states: seq<State>, actions: seq<Action>, n: nat, id: Id)
    requires Run(states, actions) && n < |actions| && id in states[n + 1].retries && !IsClosedOf(actions[n], id)
    ensures id in states[n].retries && SameOrElapsed(states[n + 1].retries[id], states[n].retries[id])
  {
    StepKeepsEntry(states[n], actions[n], id);
  }

  lemma StillSince(states: seq<State>, actions: seq<Action>, k: nat, n: nat, id: Id)
    requires |states| == |actions| + 1 && k < n < |actions| && SinceClosed(states, actions, k, n, id)
    requires id in states[n + 1].retries && !IsClosedOf(actions[n], id)
    ensures SinceClosed(states, actions, k, n + 1, id)
  {
  }

  lemma ElapsedTwice(a: ClosedRetry, b: ClosedRetry, c: ClosedRetry)
    requires SameOrElapsed(a, b) && SameOrElapsed(b, c)
    ensures SameOrElapsed(a, c)
  {
  }

  lemma StartsEmpty(states: seq<State>, actions: seq<Action>, id: Id)
    requires Run(states, actions)
    ensures id !in states[0].retries
  {
  }

  /** A retry entry is the one its id's last CLOSED made, short of a wait that is over. */
  lemma {:induction false} EntryHasCause(states: seq<State>, actions: seq<Action>, n: nat, id: Id) returns (k: nat)
    requires Run(states, actions) && n < |states| && id in states[n].retries
    ensures k < n && SinceClosed(states, actions, k, n, id)
    ensures SameOrElapsed(states[n].retries[id], states[k + 1].retries[id])
  {
    StartsEmpty(states, actions, id);
    if IsClosedOf(actions[n - 1], id) {
      k := n - 1;
    } else {
      RunKeepsEntry(states, actions, n - 1, id);
      k := EntryHasCause(states, actions, n - 1, id);
      StillSince(states, actions, k, n - 1, id);
      ElapsedTwice(states[n].retries[id], states[n - 1].retries[id], states[k + 1].retries[id]);
    }
  }

  /**
   Over every run: an entry that waits, waits for exactly the instant of its id's last CLOSED, which was not terminal,
   plus min(2^(k-1), 30) seconds for the k-th in a row, or the hint or ten seconds if it was rate-limited and that is
   longer.
   */
  lemma WaitIsExact(states: seq<State>, actions: seq<Action>, n: nat, id: Id) returns (k: nat)
    requires Run(states, actions) && n < |states| && id in states[n].retries && states[n].retries[id].dueAt.Some?
    ensures k < n && SinceClosed(states, actions, k, n, id) && !Classify(actions[k].m.message).Terminal?
    ensures states[n].retries[id].dueAt
            == Some(states[k].now + WaitFor(actions[k].m.message, Streak(states[k].log, id) + 1))
  {
    var due;
    k := EntryHasCause(states, actions, n, id);
    due := DueOf(states, actions, k, id);
    assert states[n].retries[id].dueAt == Some(due);
  }

  lemma DueOf(states: seq<State>, actions: seq<Action>, k: nat, id: Id) returns (due: nat)
    requires Run(states, actions) && k < |actions| && IsClosedOf(actions[k], id)
    requires id in states[k + 1].retries && states[k + 1].retries[id].dueAt.Some?
    ensures !Classify(actions[k].m.message).Terminal? && states[k + 1].retries[id].dueAt == Some(due)
    ensures due == states[k].now + WaitFor(actions[k].m.message, Streak(states[k].log, id) + 1)
  {
    ClosedIsScheduled(states, actions, k, id, actions[k].m.message);
    due := states[k + 1].retries[id].dueAt.value;
  }

  /** And an entry is terminal only because a terminal CLOSED came for its id, which has had its entry ever since. */
  lemma {:induction false} TerminalHasCause(states: seq<State>, actions: seq<Action>, n: nat, id: Id) returns (k: nat)
    requires Run(states, actions) && n < |states| && id in states[n].retries && states[n].retries[id].terminal
    ensures k < n && IsClosedOf(actions[k], id) && Classify(actions[k].m.message).Terminal?
    ensures forall j :: k < j <= n ==> id in states[j].retries
  {
    var last := EntryHasCause(states, actions, n, id);
    if Classify(actions[last].m.message).Terminal? {
      k := last;
    } else {
      TerminalWasBefore(states, actions, last, id);
      k := TerminalHasCause(states, actions, last, id);
    }
  }

  lemma TerminalWasBefore(states: seq<State>, actions: seq<Action>, k: nat, id: Id)
    requires Run(states, actions) && k < |actions| && IsClosedOf(actions[k], id)
    requires !Classify(actions[k].m.message).Terminal?
    requires id in states[k + 1].retries && states[k + 1].retries[id].terminal
    ensures id in states[k].retries && states[k].retries[id].terminal
  {
    AttemptsCounted(states, actions, k, id);
    ClosedMakesEntry(states[k], id, actions[k].m.message);
    ScheduleIs(RetryEntry(states[k], id), Streak(states[k].log, id), actions[k].m.message, states[k].now);
  }

  // ---- When the time is up ----

  lemma {:induction false} RequestsOpen(open: map<Id, Filter>, retries: map<Id, ClosedRetry>, subs: seq<Subscription>,
                                        now: nat, x: Subscription)
    requires OneFilterPerId(subs + [x]) && !BlockedId(retries, x.id, now)
    requires x in subs || (x.id in open && open[x.id] == x.filter)
    ensures var out := Replay(open, Requests(open, retries, subs, now)); x.id in out && out[x.id] == x.filter
    decreases subs
  {
    if subs != [] {
      var sub, rest := subs[0], subs[1..];
      assert subs == [sub] + rest && sub in subs + [x] && forall y :: y in rest + [x] ==> y in subs + [x];
      if Decide(open, retries, sub, now) == Send {
        RequestsOpen(open[sub.id := sub.filter], retries, rest, now, x);
        ReplayCons(open, Req(sub.id, sub.filter), Requests(open[sub.id := sub.filter], retries, rest, now));
      } else {
        RequestsOpen(open, retries, rest, now, x);
      }
    }
  }

  lemma {:induction false} ClosingKeepsWanted(open: map<Id, Filter>, order: seq<Id>, id: Id)
    requires id !in order
    ensures var out := Replay(open, Closes(order));
            (id in out <==> id in open) && (id in out ==> out[id] == open[id])
    decreases order
  {
    if order != [] {
      ClosingKeepsWanted(open - {order[0]}, order[1..], id);
      assert Closes(order) == [Close(order[0])] + Closes(order[1..]);
      ReplayCons(open, Close(order[0]), Closes(order[1..]));
    }
  }

  /** Nothing holds the subscription back: no entry, or one whose wait is over. */
  predicate MayReopen(s: State, id: Id) {
    id in s.retries ==> !s.retries[id].terminal && (s.retries[id].dueAt.Some? ==> s.retries[id].dueAt.value <= s.now)
  }

  lemma PassOpens(s: State, x: Subscription, order: seq<Id>) returns (steps: seq<PassStep>, t: State)
    requires Names(s) && s.pc.Start? && x in Wanted(s) && MayReopen(s, x.id)
    requires Lists(order, Stale(s.open, Wanted(s)))
    ensures Leads(s, steps, t) && t.pc.Idle? && x.id in t.open && t.open[x.id] == x.filter
  {
    steps, t := UndisturbedPass(s, order);
    WantedIsConsistent(s);
    var closed := Replay(s.open, Closes(order));
    assert x.id in Ids(Wanted(s));
    ClosingKeepsWanted(s.open, order, x.id);
    forall y, z | y in Wanted(s) + [x] && z in Wanted(s) + [x] && y.id == z.id
      ensures y == z
    {
    }
    RequestsOpen(closed, t.retries, Wanted(s), s.now, x);
  }

  /** However a pass was started, unless someone interrupts it opens every wanted subscription that may reopen. */
  lemma PassReopens(states: seq<State>, actions: seq<Action>, n: nat, x: Subscription, order: seq<Id>)
    returns (steps: seq<PassStep>, t: State)
    requires Run(states, actions) && n < |states| && states[n].pc.Start?
    requires x in Wanted(states[n]) && MayReopen(states[n], x.id)
    requires Lists(order, Stale(states[n].open, Wanted(states[n])))
    ensures Leads(states[n], steps, t) && t.pc.Idle? && x.id in t.open && t.open[x.id] == x.filter
  {
    EveryRunKeepsInv(states, actions, n);
    steps, t := PassOpens(states[n], x, order);
  }

  /**
   Once the wait is over the timer may fire, and unless someone interrupts, the pass it starts opens the
   subscription.
   */
  lemma TimerReopens(states: seq<State>, actions: seq<Action>, n: nat, x: Subscription, order: seq<Id>)
    returns (steps: seq<PassStep>, t: State)
    requires Run(states, actions) && n < |states|
    requires var s := states[n];
             && s.pc.Idle? && x in Wanted(s) && x.id in s.retries
             && !s.retries[x.id].terminal && s.retries[x.id].dueAt.Some? && s.retries[x.id].dueAt.value <= s.now
    requires Lists(order, Stale(states[n].open, Wanted(states[n])))
    ensures PassMay(states[n], TimerFires) && Leads(PassNext(states[n], TimerFires), steps, t)
    ensures t.pc.Idle? && x.id in t.open && t.open[x.id] == x.filter
  {
    var s := states[n];
    EveryRunKeepsInv(states, actions, n);
    assert Due(s.retries[x.id], s.now);
    var s1 := PassNext(s, TimerFires);
    NamesKept(s, ByPass(TimerFires));
    steps, t := PassOpens(s1, x, order);
  }

  // ---- The timer does not spin ----

  /** Every wait ends after `then`. */
  ghost predicate WaitsPast(s: State, since: nat) {
    s.now >= since && forall id :: id in s.retries && s.retries[id].dueAt.Some? ==> s.retries[id].dueAt.value > since
  }

  lemma FireSpends(s: State)
    requires PassMay(s, TimerFires)
    ensures WaitsPast(PassNext(s, TimerFires), s.now)
  {
  }

  lemma ClosedWaits(entry: ClosedRetry, message: string, now: nat)
    ensures entry.Schedule(message, now).dueAt.Some? ==> entry.Schedule(message, now).dueAt.value > now
  {
  }

  lemma ClockKept(s: State, a: Action)
    requires Enabled(s, a)
    ensures Next(s, a).now == s.now + (if a.Tick? then a.elapsed else 0)
  {
    match a
    case Tick(_) =>
    case ByWriter(w) => WriterKeepsClock(s, w);
    case ByFetch(f) => FetchKeepsClock(s, f);
    case ByPass(p) => PassKeepsClock(s, p);
    case ByFrame(m) => FrameKeepsClock(s, m);
  }

  lemma WriterKeepsClock(s: State, w: WriterStep)
    requires WriterMay(s, w)
    ensures WriterNext(s, w).now == s.now
  {
  }

  lemma FetchKeepsClock(s: State, f: FetchStep)
    requires FetchMay(s, f)
    ensures FetchNext(s, f).now == s.now
  {
  }

  lemma PassKeepsClock(s: State, p: PassStep)
    requires PassMay(s, p)
    ensures PassNext(s, p).now == s.now
  {
  }

  lemma FrameKeepsClock(s: State, m: FrameStep)
    requires FrameMay(s, m)
    ensures FrameNext(s, m).now == s.now
  {
  }

  lemma EntryWaitsPast(s: State, a: Action, since: nat, id: Id)
    requires Enabled(s, a) && WaitsPast(s, since) && id in Next(s, a).retries && Next(s, a).retries[id].dueAt.Some?
    ensures Next(s, a).retries[id].dueAt.value > since
  {
    if IsClosedOf(a, id) {
      ClosedMakesEntry(s, id, a.m.message);
      ClosedWaits(RetryEntry(s, id), a.m.message, s.now);
    } else {
      StepKeepsEntry(s, a, id);
    }
  }

  lemma {:induction false} StillWaitsPast(states: seq<State>, actions: seq<Action>, i: nat, j: nat, since: nat)
    requires Run(states, actions) && i <= j < |states| && WaitsPast(states[i], since)
    ensures WaitsPast(states[j], since)
  {
    if i < j {
      StillWaitsPast(states, actions, i, j - 1, since);
      var s, a := states[j - 1], actions[j - 1];
      ClockKept(s, a);
      forall id | id in Next(s, a).retries && Next(s, a).retries[id].dueAt.Some?
        ensures Next(s, a).retries[id].dueAt.value > since
      {
        EntryWaitsPast(s, a, since, id);
      }
    }
  }

  /** The timer fires at most once per instant: whatever made it fire is spent, and a new CLOSED always waits. */
  lemma TimerNeverSpins(states: seq<State>, actions: seq<Action>, i: nat, j: nat)
    requires Run(states, actions) && i < j < |actions|
    requires actions[i] == ByPass(TimerFires) && actions[j] == ByPass(TimerFires)
    ensures states[i].now < states[j].now
  {
    FireSpends(states[i]);
    StillWaitsPast(states, actions, i + 1, j, states[i].now);
    var id :| id in states[j].retries && Due(states[j].retries[id], states[j].now);
  }
}
