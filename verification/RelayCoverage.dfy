/**
 What every interleaving keeps: no wanted subscription is stranded, no unwanted one
 is left open, and retry state never outlives the subscription it was minted for.
 */
module RelayCoverage {
  import opened Options
  import opened RelayClosed
  import opened RelaySession
  import opened RelayProtocol

  // ---- Names ----

  /** A finite request that may still have its subscription in `transient`. */
  predicate MayBeTransient(f: Fetch) { f.Waiting? || f.Leaving? || f.Left? }

  /** The two kinds of caller never collide. */
  ghost predicate WantedNames(desired: seq<Subscription>, transient: seq<Subscription>, fetches: map<Id, Fetch>) {
    && OneFilterPerId(desired) && (forall d :: d in desired ==> d.id !in fetches)
    && (forall t :: t in transient ==> t.id in fetches && MayBeTransient(fetches[t.id]))
    && OneFilterPerId(transient)
  }

  /** Every table speaks of ids that were named at some point. */
  ghost predicate KnownNames(desired: seq<Subscription>, fetches: map<Id, Fetch>, open: map<Id, Filter>,
                             retries: map<Id, ClosedRetry>, pc: Pc, known: set<Id>) {
    && (forall d :: d in desired ==> d.id in known)
    && (forall id :: id in fetches ==> id in known)
    && (forall id :: id in open ==> id in known)
    && (forall id :: id in retries ==> id in known)
    && (pc.Closing? ==> forall x :: x in pc.snapshot ==> x.id in known)
    && (pc.Sending? ==> forall x :: x in pc.rest ==> x.id in known)
  }

  ghost predicate Names(s: State) {
    && WantedNames(s.desired, s.transient, s.fetches)
    && KnownNames(s.desired, s.fetches, s.open, s.retries, s.pc, s.known)
  }

  lemma WantedIsConsistent(s: State)
    requires Names(s)
    ensures (forall x :: x in Wanted(s) ==> x.id in s.known) && OneFilterPerId(Wanted(s))
  {
  }

  lemma PushKeepsNames(s: State, f: FetchStep)
    requires Names(s) && FetchMay(s, f) && f.Push?
    ensures Names(FetchNext(s, f))
  {
  }

  lemma RetireKeepsNames(s: State, f: FetchStep)
    requires Names(s) && FetchMay(s, f) && f.Retires?
    ensures Names(FetchNext(s, f))
  {
  }

  lemma FetchKeepsNames(s: State, f: FetchStep)
    requires Names(s) && FetchMay(s, f)
    ensures Names(FetchNext(s, f))
  {
    match f
    case Push(_) => PushKeepsNames(s, f);
    case Retires(_) => RetireKeepsNames(s, f);
    case _ =>
  }

  lemma PassKeepsNames(s: State, p: PassStep)
    requires Names(s) && PassMay(s, p)
    ensures Names(PassNext(s, p))
  {
    match p
    case Snapshot => WantedIsConsistent(s);
    case _ =>
  }

  lemma FrameKeepsNames(s: State, m: FrameStep)
    requires Names(s) && FrameMay(s, m)
    ensures Names(FrameNext(s, m))
  {
    match m
    case _ =>
  }

  lemma WriterKeepsNames(s: State, w: WriterStep)
    requires Names(s) && WriterMay(s, w)
    ensures Names(WriterNext(s, w))
  {
    match w
    case SetSubscriptions(subs) => assert forall x :: x in subs ==> x.id in Ids(subs);
    case WriterPosts =>
  }

  lemma NamesKept(s: State, a: Action)
    requires Names(s) && Enabled(s, a)
    ensures Names(Next(s, a))
  {
    match a
    case Tick(_) =>
    case ByWriter(w) => WriterKeepsNames(s, w);
    case ByFetch(f) => FetchKeepsNames(s, f);
    case ByPass(p) => PassKeepsNames(s, p);
    case ByFrame(m) => FrameKeepsNames(s, m);
  }

  // ---- Departures are on record ----

  ghost predicate Named(subs: seq<Subscription>, id: Id) { exists x :: x in subs && x.id == id }

  /** The write side still wants `id`, or has recorded that it left. */
  ghost predicate OnRecord(wanted: seq<Subscription>, removed: set<Id>, id: Id) {
    Named(wanted, id) || id in removed
  }

  /**
   Everything the socket has open or is about to open is wanted or recorded as gone,
   and a recorded departure has a reconcile coming that will drain it.
   */
  ghost predicate Recorded(s: State) {
    && (!s.pc.Down? ==> forall id :: id in s.open ==>
          OnRecord(Wanted(s), s.removed, id) || (s.pc.Closing? && !Named(s.pc.snapshot, id)))
    && (s.pc.Closing? ==> forall x :: x in s.pc.snapshot ==> OnRecord(Wanted(s), s.removed, x.id))
    && (s.pc.Sending? ==> forall x :: x in s.pc.rest ==> OnRecord(Wanted(s), s.removed, x.id))
    && (s.removed != {} ==> Promised(s) || s.pc.Start? || s.pc.Down?)
  }

  /** A write never takes an id off the record. */
  lemma ReplacingKeepsRecord(desired: seq<Subscription>, transient: seq<Subscription>, subs: seq<Subscription>,
                             removed: set<Id>, id: Id)
    requires OnRecord(desired + transient, removed, id)
    ensures OnRecord(subs + transient, removed + Departed(desired, subs), id)
  {
    if id !in removed {
      var x :| x in desired + transient && x.id == id;
      if x in desired && id !in Departed(desired, subs) {
        assert FirstWith(subs, x.id) == Some(x);
        assert x in subs + transient;
      } else if x in transient {
        assert x in subs + transient;
      }
    }
  }

  lemma RetiringKeepsRecord(desired: seq<Subscription>, transient: seq<Subscription>, gone: Id, removed: set<Id>,
                            id: Id)
    requires OnRecord(desired + transient, removed, id)
    ensures OnRecord(desired + Without(transient, gone), removed + {gone}, id)
  {
    if id !in removed && id != gone {
      var x :| x in desired + transient && x.id == id;
      assert x in desired + Without(transient, gone);
    }
  }

  /** The record only grows while nobody drains it. */
  ghost predicate RecordGrows(s: State, t: State) {
    forall id :: OnRecord(Wanted(s), s.removed, id) ==> OnRecord(Wanted(t), t.removed, id)
  }

  lemma RecordedCarries(s: State, t: State)
    requires Recorded(s) && RecordGrows(s, t) && t.pc == s.pc && t.open == s.open
    requires t.removed != {} ==> Promised(t) || t.pc.Start? || t.pc.Down?
    ensures Recorded(t)
  {
  }

  lemma WriterKeepsRecord(s: State, w: WriterStep)
    requires Recorded(s) && WriterMay(s, w)
    ensures Recorded(WriterNext(s, w))
  {
    var t := WriterNext(s, w);
    match w
    case SetSubscriptions(subs) =>
      forall id | OnRecord(Wanted(s), s.removed, id) ensures OnRecord(Wanted(t), t.removed, id) {
        ReplacingKeepsRecord(s.desired, s.transient, subs, s.removed, id);
      }
      RecordedCarries(s, t);
    case WriterPosts => RecordedCarries(s, t);
  }

  lemma FetchKeepsRecord(s: State, f: FetchStep)
    requires Recorded(s) && FetchMay(s, f)
    ensures Recorded(FetchNext(s, f))
  {
    var t := FetchNext(s, f);
    match f
    case Push(id) =>
      forall i | OnRecord(Wanted(s), s.removed, i) ensures OnRecord(Wanted(t), t.removed, i) {
        assert forall x :: x in Wanted(s) ==> x in Wanted(t);
      }
      RecordedCarries(s, t);
    case Retires(id) =>
      forall i | OnRecord(Wanted(s), s.removed, i) ensures OnRecord(Wanted(t), t.removed, i) {
        RetiringKeepsRecord(s.desired, s.transient, id, s.removed, i);
      }
      RecordedCarries(s, t);
    case _ => RecordedCarries(s, t);
  }

  lemma PassKeepsRecord(s: State, p: PassStep)
    requires Recorded(s) && PassMay(s, p)
    ensures Recorded(PassNext(s, p))
  {
    match p
    case Snapshot =>
    case CloseSent(id) =>
    case ClosesDone =>
      forall id | id in s.open ensures Named(s.pc.snapshot, id) {
        assert id !in Stale(s.open, s.pc.snapshot);
      }
    case RequestSent =>
      assert s.pc.rest[0] in s.pc.rest && forall x :: x in s.pc.rest[1..] ==> x in s.pc.rest;
    case RequestSkipped =>
      assert forall x :: x in s.pc.rest[1..] ==> x in s.pc.rest;
    case _ =>
  }

  lemma FrameKeepsRecord(s: State, m: FrameStep)
    requires Recorded(s) && FrameMay(s, m)
    ensures Recorded(FrameNext(s, m))
  {
    match m
    case Settle =>
      var t := FrameNext(s, m);
      forall i | OnRecord(Wanted(s), s.removed, i) ensures OnRecord(Wanted(t), t.removed, i) {
        RetiringKeepsRecord(s.desired, s.transient, s.pc.id, s.removed, i);
      }
    case _ =>
  }

  lemma RecordKept(s: State, a: Action)
    requires Recorded(s) && Enabled(s, a)
    ensures Recorded(Next(s, a))
  {
    match a
    case Tick(_) => RecordedCarries(s, Next(s, a));
    case ByWriter(w) => WriterKeepsRecord(s, w);
    case ByFetch(f) => FetchKeepsRecord(s, f);
    case ByPass(p) => PassKeepsRecord(s, p);
    case ByFrame(m) => FrameKeepsRecord(s, m);
  }

  // ---- No wanted subscription is stranded ----

  predicate OpenAs(open: map<Id, Filter>, x: Subscription) { x.id in open && open[x.id] == x.filter }

  /** Held by a CLOSED: waiting out a delay that will reopen it, or latched as terminal. */
  predicate HeldByRelay(open: map<Id, Filter>, retries: map<Id, ClosedRetry>, x: Subscription) {
    x.id !in open && x.id in retries && retries[x.id].Held()
  }

  /** `x` is open exactly as wanted, or something is bound to open it. */
  ghost predicate Covered(pc: Pc, promised: bool, open: map<Id, Filter>, retries: map<Id, ClosedRetry>,
                          x: Subscription) {
    || promised || pc.Down? || pc.Start?
    || (pc.Closing? && x in pc.snapshot)
    || (pc.Sending? && x in pc.rest)
    || (pc.Settling? && x.id == pc.id)  // a finished request, about to be retired
    || (!pc.Closing? && (OpenAs(open, x) || HeldByRelay(open, retries, x)))
  }

  ghost predicate NoneStranded(s: State) {
    forall x :: x in s.desired || x in s.transient ==> Covered(s.pc, Promised(s), s.open, s.retries, x)
  }

  /** Unless a newer write has promised another pass, the running one works on what is wanted now. */
  ghost predicate PassIsCurrent(s: State) {
    && (s.pc.Closing? ==> Promised(s) || forall x :: x in s.pc.snapshot ==> x in s.desired || x in s.transient)
    && (s.pc.Sending? ==> Promised(s) || forall x :: x in s.pc.rest ==> x in s.desired || x in s.transient)
  }

  ghost predicate Sound(s: State) {
    && NoneStranded(s) && PassIsCurrent(s)
    && (!s.pc.Down? ==> OpenUnblocked(s.open, s.retries, s.now))
  }

  lemma WriterKeepsSound(s: State, w: WriterStep)
    requires Sound(s) && WriterMay(s, w)
    ensures Sound(WriterNext(s, w))
  {
    match w
    case _ =>
  }

  lemma FetchKeepsSound(s: State, f: FetchStep)
    requires Sound(s) && FetchMay(s, f)
    ensures Sound(FetchNext(s, f))
  {
    match f
    case _ =>
  }

  lemma SendKeepsSound(s: State)
    requires Names(s) && Sound(s) && PassMay(s, RequestSent)
    ensures Sound(PassNext(s, RequestSent))
  {
    WantedIsConsistent(s);
    assert s.pc.rest == [s.pc.rest[0]] + s.pc.rest[1..];
  }

  lemma SkipKeepsSound(s: State)
    requires Sound(s) && PassMay(s, RequestSkipped)
    ensures Sound(PassNext(s, RequestSkipped))
  {
    assert s.pc.rest == [s.pc.rest[0]] + s.pc.rest[1..];
  }

  lemma SnapshotKeepsSound(s: State)
    requires Sound(s) && PassMay(s, Snapshot)
    ensures Sound(PassNext(s, Snapshot))
  {
  }

  lemma PassKeepsSound(s: State, p: PassStep)
    requires Names(s) && Sound(s) && PassMay(s, p)
    ensures Sound(PassNext(s, p))
  {
    match p
    case RequestSent => SendKeepsSound(s);
    case RequestSkipped => SkipKeepsSound(s);
    case Snapshot => SnapshotKeepsSound(s);
    case _ =>
  }

  lemma FrameKeepsSound(s: State, m: FrameStep)
    requires Sound(s) && FrameMay(s, m)
    ensures Sound(FrameNext(s, m))
  {
    match m
    case _ =>
  }

  lemma SoundKept(s: State, a: Action)
    requires Names(s) && Sound(s) && Enabled(s, a)
    ensures Sound(Next(s, a))
  {
    match a
    case Tick(_) =>
    case ByWriter(w) => WriterKeepsSound(s, w);
    case ByFetch(f) => FetchKeepsSound(s, f);
    case ByPass(p) => PassKeepsSound(s, p);
    case ByFrame(m) => FrameKeepsSound(s, m);
  }

  // ---- Retry state never outlives its subscription's continuous presence ----

  /** The entry was minted since the id last departed and the id is still wanted, or its departure awaits the drain. */
  ghost predicate EntryIsCurrent(s: State, id: Id) {
    || id in s.removed
    || (id in s.minted && s.minted[id] == Departures(s.generation, id) && Named(Wanted(s), id))
  }

  ghost predicate RetriesCurrent(s: State) {
    !s.pc.Down? ==> forall id :: id in s.retries ==> EntryIsCurrent(s, id)
  }

  lemma WriterKeepsRetries(s: State, w: WriterStep)
    requires RetriesCurrent(s) && WriterMay(s, w)
    ensures RetriesCurrent(WriterNext(s, w))
  {
    var t := WriterNext(s, w);
    if w.SetSubscriptions? && !s.pc.Down? {
      forall id | id in s.retries ensures EntryIsCurrent(t, id) {
        assert EntryIsCurrent(s, id);
        ReplacingKeepsRecord(s.desired, s.transient, w.subscriptions, s.removed, id);
      }
    }
  }

  lemma RetiringKeepsRetries(s: State, gone: Id)
    requires RetriesCurrent(s)
    ensures RetriesCurrent(Retired(s, gone))
  {
    var t := Retired(s, gone);
    if !s.pc.Down? {
      forall id | id in s.retries ensures EntryIsCurrent(t, id) {
        assert EntryIsCurrent(s, id);
        RetiringKeepsRecord(s.desired, s.transient, gone, s.removed, id);
      }
    }
  }

  lemma FetchKeepsRetries(s: State, f: FetchStep)
    requires RetriesCurrent(s) && FetchMay(s, f)
    ensures RetriesCurrent(FetchNext(s, f))
  {
    match f
    case Push(id) =>
      assert forall x :: x in Wanted(s) ==> x in Wanted(FetchNext(s, f));
    case Retires(id) => RetiringKeepsRetries(s, id);
    case _ =>
  }

  lemma PassKeepsRetries(s: State, p: PassStep)
    requires RetriesCurrent(s) && PassMay(s, p)
    ensures RetriesCurrent(PassNext(s, p))
  {
    match p
    case _ =>
  }

  lemma FrameKeepsRetries(s: State, m: FrameStep)
    requires RetriesCurrent(s) && Recorded(s) && FrameMay(s, m)
    ensures RetriesCurrent(FrameNext(s, m))
  {
    match m
    case Settle => RetiringKeepsRetries(s, s.pc.id);
    case _ =>
  }

  lemma RetriesKept(s: State, a: Action)
    requires RetriesCurrent(s) && Recorded(s) && Enabled(s, a)
    ensures RetriesCurrent(Next(s, a))
  {
    match a
    case Tick(_) =>
    case ByWriter(w) => WriterKeepsRetries(s, w);
    case ByFetch(f) => FetchKeepsRetries(s, f);
    case ByPass(p) => PassKeepsRetries(s, p);
    case ByFrame(m) => FrameKeepsRetries(s, m);
  }

  // ---- Over every run ----

  ghost predicate Inv(s: State) { Names(s) && Recorded(s) && Sound(s) && RetriesCurrent(s) }

  lemma InvKept(s: State, a: Action)
    requires Inv(s) && Enabled(s, a)
    ensures Inv(Next(s, a))
  {
    NamesKept(s, a);
    RecordKept(s, a);
    SoundKept(s, a);
    RetriesKept(s, a);
  }

  lemma {:induction false} EveryRunKeepsInv(states: seq<State>, actions: seq<Action>, i: nat)
    requires Run(states, actions) && i < |states|
    ensures Inv(states[i])
  {
    if i > 0 {
      EveryRunKeepsInv(states, actions, i - 1);
      InvKept(states[i - 1], actions[i - 1]);
    }
  }

  /**
   No stranded subscription. In every state of every interleaving with a live socket,
   a wanted subscription is open with its exact filter, or still to be sent by the
   running pass, or a reconcile is promised, or it is held by a scheduled or terminal
   retry, or it is a finished request the loop is retiring.
   */
  lemma NoSubscriptionStranded(states: seq<State>, actions: seq<Action>, i: nat, x: Subscription)
    requires Run(states, actions) && i < |states|
    requires x in Wanted(states[i]) && !states[i].pc.Down? && !states[i].pc.Start? && !Promised(states[i])
    ensures var s := states[i];
            || (s.pc.Closing? && x in s.pc.snapshot)
            || (s.pc.Sending? && x in s.pc.rest)
            || (x.id in s.open && s.open[x.id] == x.filter)
            || (x.id !in s.open && x.id in s.retries && (s.retries[x.id].terminal || s.retries[x.id].dueAt.Some?))
            || (s.pc.Settling? && x.id == s.pc.id)
  {
    EveryRunKeepsInv(states, actions, i);
  }

  /**
   No orphan. Whatever the socket has open is wanted, or the running pass is about to
   CLOSE it, or its departure is recorded and a reconcile that will CLOSE it is promised.
   */
  lemma NoSubscriptionOrphaned(states: seq<State>, actions: seq<Action>, i: nat, id: Id)
    requires Run(states, actions) && i < |states|
    requires !states[i].pc.Down? && id in states[i].open
    ensures var s := states[i];
            || (exists x :: x in Wanted(s) && x.id == id)
            || (s.pc.Closing? && id in Stale(s.open, s.pc.snapshot))
            || (id in s.removed && (Promised(s) || s.pc.Start?))
  {
    EveryRunKeepsInv(states, actions, i);
    var s := states[i];
    if s.pc.Closing? && !Named(s.pc.snapshot, id) {
      assert id in Stale(s.open, s.pc.snapshot);
    }
  }

  /** At rest the socket runs exactly what is wanted, short of what the relay is holding back. */
  lemma AtRestInLine(states: seq<State>, actions: seq<Action>, i: nat)
    requires Run(states, actions) && i < |states|
    requires states[i].pc.Idle? && !Promised(states[i])
    ensures var s := states[i];
            && (forall id :: id in s.open ==> exists x :: x in Wanted(s) && x.id == id && s.open[id] == x.filter)
            && (forall x :: x in Wanted(s) ==> if x.id in s.open then s.open[x.id] == x.filter
                                               else x.id in s.retries && s.retries[x.id].Held())
  {
    EveryRunKeepsInv(states, actions, i);
    var s := states[i];
    forall id | id in s.open ensures exists x :: x in Wanted(s) && x.id == id && s.open[id] == x.filter {
      assert OnRecord(Wanted(s), s.removed, id);
      var x :| x in Wanted(s) && x.id == id;
      assert Covered(s.pc, Promised(s), s.open, s.retries, x);
    }
  }

  /**
   Why no "absent from the desired set" prune is needed: right after the drain every
   retry entry belongs to a snapshot subscription that has been wanted without a break
   since the entry was minted, however removes and re-adds coalesced.
   */
  lemma DrainLeavesOnlyCurrentRetries(states: seq<State>, actions: seq<Action>, i: nat, id: Id)
    requires Run(states, actions) && i < |actions| && actions[i] == ByPass(Snapshot)
    requires id in states[i + 1].retries
    ensures var t := states[i + 1];
            && (exists x :: x in t.pc.snapshot && x.id == id)
            && id in t.minted && t.minted[id] == Departures(t.generation, id)
  {
    EveryRunKeepsInv(states, actions, i + 1);
    assert EntryIsCurrent(states[i + 1], id);
  }
}
