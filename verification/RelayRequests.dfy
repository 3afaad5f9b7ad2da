/** Finite requests settle once, with exactly what arrived for them, and leave nothing behind. */
module RelayRequests {
  import opened RelayClosed
  import opened RelaySession
  import opened RelayProtocol
  import opened RelayCoverage

  predicate MayBePending(f: Fetch) { f.Registered? || f.Waiting? || f.Leaving? }

  predicate HasOutcome(f: Fetch) { f.Leaving? || f.Left? || f.Returning? || f.Done? }

  /** A pending request: its call is under way, it is held back by nothing, and it has all it was sent. */
  ghost predicate PendingAt(s: State, id: Id) {
    id in s.requests ==>
      && id in s.fetches && MayBePending(s.fetches[id]) && id !in s.settled && id !in s.retries
      && (s.fetches[id].Registered? || Named(s.transient, id))
      && id in s.heard
      && s.heard[id] == s.requests[id] + (if s.pc.Pushing? && s.pc.id == id then [s.pc.event] else [])
  }

  /** A call past its wait took its events from the loop's result, and only the loop or the call itself ends it. */
  ghost predicate SettledAt(s: State, id: Id) {
    && (id in s.settled ==>
          id in s.fetches && id in s.heard && (s.settled[id].Fetched? ==> s.settled[id].events == s.heard[id]))
    && (id in s.fetches ==> id in s.known && (id in s.requests || id in s.settled || !MayBePending(s.fetches[id])))
    && (id in s.fetches && HasOutcome(s.fetches[id]) && s.fetches[id].outcome.Fetched? ==>
          id in s.settled && s.settled[id] == s.fetches[id].outcome)
    && (s.pc == Settling(id) ==> id in s.settled)
    && (s.pc.Pushing? && s.pc.id == id ==> id in s.fetches)
    && (id in s.retries ==> id in s.known)
  }

  ghost predicate RequestAt(s: State, id: Id) { PendingAt(s, id) && SettledAt(s, id) }

  lemma NameStays(subs: seq<Subscription>, gone: Id, id: Id)
    requires Named(subs, id) && id != gone
    ensures Named(Without(subs, gone), id)
  {
    var x :| x in subs && x.id == id;
    assert x in Without(subs, gone);
  }

  lemma NameAdded(subs: seq<Subscription>, x: Subscription, id: Id)
    ensures Named(subs + [x], x.id)
    ensures Named(subs, id) ==> Named(subs + [x], id)
  {
    assert x in subs + [x];
    if Named(subs, id) {
      var y :| y in subs && y.id == id;
      assert y in subs + [x];
    }
  }

  lemma FetchStartKeepsRequest(s: State, f: FetchStep, id: Id)
    requires RequestAt(s, id) && FetchMay(s, f)
    requires f.Register? || f.Push? || f.Posts? || f.Resolves?
    ensures RequestAt(FetchNext(s, f), id)
  {
    match f
    case Register(i, _) =>
    case Push(i) => NameAdded(s.transient, Subscription(i, s.fetches[i].filter), id);
    case Posts(i) =>
    case Resolves(i, _) =>
  }

  lemma FetchEndKeepsRequest(s: State, f: FetchStep, id: Id)
    requires RequestAt(s, id) && FetchMay(s, f)
    requires f.Forgets? || f.Returns?
    ensures RequestAt(FetchNext(s, f), id)
  {
    match f
    case Forgets(i) =>
    case Returns(i) =>
  }

  lemma RetiringKeepsRequest(s: State, f: FetchStep, id: Id)
    requires RequestAt(s, id) && FetchMay(s, f) && f.Retires?
    ensures RequestAt(FetchNext(s, f), id)
  {
    if id != f.id && Named(s.transient, id) { NameStays(s.transient, f.id, id); }
  }

  lemma FetchKeepsRequest(s: State, f: FetchStep, id: Id)
    requires RequestAt(s, id) && FetchMay(s, f)
    ensures RequestAt(FetchNext(s, f), id)
  {
    match f
    case Forgets(_) => FetchEndKeepsRequest(s, f, id);
    case Returns(_) => FetchEndKeepsRequest(s, f, id);
    case Retires(_) => RetiringKeepsRequest(s, f, id);
    case _ => FetchStartKeepsRequest(s, f, id);
  }

  lemma WriterKeepsRequest(s: State, w: WriterStep, id: Id)
    requires RequestAt(s, id) && WriterMay(s, w)
    ensures RequestAt(WriterNext(s, w), id)
  {
  }

  lemma PassKeepsRequest(s: State, p: PassStep, id: Id)
    requires RequestAt(s, id) && PassMay(s, p)
    ensures RequestAt(PassNext(s, p), id)
  {
    match p
    case Connect =>
    case Snapshot =>
    case TimerFires =>
    case _ =>
  }

  lemma FrameKeepsRequest(s: State, m: FrameStep, id: Id)
    requires RequestAt(s, id) && FrameMay(s, m)
    requires s.open.Keys <= s.known
    ensures RequestAt(FrameNext(s, m), id)
  {
    match m
    case Ignored =>
    case EventForRequest(_, _) =>
    case EventPushed =>
    case EventForArchive(_) =>
    case ClosedForRequest(_, _) =>
    case ClosedForSubscription(_, _) =>
    case EoseForRequest(_) =>
    case EoseForSubscription(_) =>
    case Settle => if id != s.pc.id && Named(s.transient, id) { NameStays(s.transient, s.pc.id, id); }
    case LoopPosts =>
  }

  lemma RequestKept(s: State, a: Action, id: Id)
    requires RequestAt(s, id) && Enabled(s, a) && s.open.Keys <= s.known
    ensures RequestAt(Next(s, a), id)
  {
    match a
    case Tick(_) =>
    case ByWriter(w) => WriterKeepsRequest(s, w, id);
    case ByFetch(f) => FetchKeepsRequest(s, f, id);
    case ByPass(p) => PassKeepsRequest(s, p, id);
    case ByFrame(m) => FrameKeepsRequest(s, m, id);
  }

  // ---- Over every run ----

  lemma {:induction false} EveryRunKeepsRequests(states: seq<State>, actions: seq<Action>, i: nat, id: Id)
    requires Run(states, actions) && i < |states|
    ensures RequestAt(states[i], id)
  {
    if i > 0 {
      EveryRunKeepsRequests(states, actions, i - 1, id);
      EveryRunKeepsInv(states, actions, i - 1);
      assert states[i - 1].open.Keys <= states[i - 1].known;
      RequestKept(states[i - 1], actions[i - 1], id);
    }
  }

  /** The verified events the loop took in for request `id`, in arrival order. */
  function Accepted(actions: seq<Action>, id: Id): seq<Event> {
    if actions == [] then []
    else Accepted(actions[..|actions| - 1], id) + TakenIn(actions[|actions| - 1], id)
  }

  function TakenIn(a: Action, id: Id): seq<Event> {
    if a.ByFrame? && a.m.EventForRequest? && a.m.id == id then [a.m.event] else []
  }

  /** One step against the history of request `id`: arrivals are appended, results are never replaced. */
  ghost predicate HistoryGrows(s: State, t: State, taken: seq<Event>, id: Id) {
    && (if id in s.heard then id in t.heard && t.heard[id] == s.heard[id] + taken
        else taken == [] && (id in t.heard ==> t.heard[id] == []))
    && (id in s.settled ==> id in t.settled && t.settled[id] == s.settled[id])
    && (id in t.heard ==> id in t.known)
  }

  lemma WriterGrows(s: State, w: WriterStep, id: Id)
    requires WriterMay(s, w) && (id in s.heard ==> id in s.known)
    ensures HistoryGrows(s, WriterNext(s, w), [], id)
  {
  }

  lemma FetchGrows(s: State, f: FetchStep, id: Id)
    requires FetchMay(s, f) && (id in s.heard ==> id in s.known)
    ensures HistoryGrows(s, FetchNext(s, f), [], id)
  {
    match f
    case Register(_, _) =>
    case Retires(_) =>
    case _ =>
  }

  lemma PassGrows(s: State, p: PassStep, id: Id)
    requires PassMay(s, p) && (id in s.heard ==> id in s.known)
    ensures HistoryGrows(s, PassNext(s, p), [], id)
  {
  }

  lemma FrameGrows(s: State, m: FrameStep, id: Id)
    requires RequestAt(s, id) && FrameMay(s, m) && (id in s.heard ==> id in s.known)
    ensures HistoryGrows(s, FrameNext(s, m), TakenIn(ByFrame(m), id), id)
  {
    match m
    case EventForRequest(_, _) =>
    case ClosedForRequest(_, _) =>
    case EoseForRequest(_) =>
    case _ =>
  }

  lemma HistoryKept(s: State, a: Action, id: Id)
    requires RequestAt(s, id) && Enabled(s, a) && (id in s.heard ==> id in s.known)
    ensures HistoryGrows(s, Next(s, a), TakenIn(a, id), id)
  {
    match a
    case Tick(_) =>
    case ByWriter(w) => WriterGrows(s, w, id);
    case ByFetch(f) => FetchGrows(s, f, id);
    case ByPass(p) => PassGrows(s, p, id);
    case ByFrame(m) => FrameGrows(s, m, id);
  }

  lemma {:induction false} HeardIsAccepted(states: seq<State>, actions: seq<Action>, i: nat, id: Id)
    requires Run(states, actions) && i < |states|
    ensures if id in states[i].heard then id in states[i].known && states[i].heard[id] == Accepted(actions[..i], id)
            else Accepted(actions[..i], id) == []
  {
    if i == 0 {
      assert actions[..0] == [];
    } else {
      HeardIsAccepted(states, actions, i - 1, id);
      EveryRunKeepsRequests(states, actions, i - 1, id);
      assert actions[..i][..i - 1] == actions[..i - 1];
      HistoryKept(states[i - 1], actions[i - 1], id);
    }
  }

  /**
   A pending request holds exactly the verified events taken in for it, in order, save one the loop is just
   handing over.
   */
  lemma PendingHoldsArrivals(states: seq<State>, actions: seq<Action>, i: nat, id: Id)
    requires Run(states, actions) && i < |states| && id in states[i].requests
    ensures var s := states[i];
            s.requests[id] + (if s.pc.Pushing? && s.pc.id == id then [s.pc.event] else []) == Accepted(actions[..i], id)
  {
    EveryRunKeepsRequests(states, actions, i, id);
    HeardIsAccepted(states, actions, i, id);
  }

  /**
   When `fetch_events` has returned: a success is exactly the verified events taken in
   for it, in order; the id is in neither `requests` nor `transient`; and if the socket
   still has it open, the running pass or a promised reconcile will CLOSE it.
   */
  lemma ReturnedCallLeavesNothing(states: seq<State>, actions: seq<Action>, i: nat, id: Id)
    requires Run(states, actions) && i < |states|
    requires id in states[i].fetches && states[i].fetches[id].Done?
    ensures var s := states[i];
            && (s.fetches[id].outcome.Fetched? ==> s.fetches[id].outcome.events == Accepted(actions[..i], id))
            && id !in s.requests
            && !(exists x :: x in Wanted(s) && x.id == id)
            && (id in s.open && !s.pc.Down? ==>
                  || (s.pc.Closing? && id in Stale(s.open, s.pc.snapshot))
                  || (id in s.removed && (Promised(s) || s.pc.Start?)))
  {
    EveryRunKeepsRequests(states, actions, i, id);
    EveryRunKeepsInv(states, actions, i);
    HeardIsAccepted(states, actions, i, id);
    if id in states[i].open && !states[i].pc.Down? {
      NoSubscriptionOrphaned(states, actions, i, id);
    }
  }

  /** Backoff never holds a pending request: it is open, being sent, or a reconcile is coming for it. */
  lemma PendingRequestIsServed(states: seq<State>, actions: seq<Action>, i: nat, id: Id)
    requires Run(states, actions) && i < |states|
    requires var s := states[i];
             id in s.requests && id in s.fetches && !s.fetches[id].Registered? && !s.pc.Down? && !s.pc.Start?
    ensures var s := states[i];
            || Promised(s)
            || id in s.open
            || (s.pc.Closing? && Named(s.pc.snapshot, id))
            || (s.pc.Sending? && Named(s.pc.rest, id))
  {
    EveryRunKeepsRequests(states, actions, i, id);
    var s := states[i];
    var x :| x in s.transient && x.id == id;
    if !Promised(s) {
      NoSubscriptionStranded(states, actions, i, x);
    }
  }

  /** A oneshot is completed at most once: over the rest of the run the result never changes. */
  lemma {:induction false} ResultIsFinal(states: seq<State>, actions: seq<Action>, i: nat, j: nat, id: Id)
    requires Run(states, actions) && i <= j < |states| && id in states[i].settled
    ensures id in states[j].settled && states[j].settled[id] == states[i].settled[id]
    decreases j
  {
    if i < j {
      ResultIsFinal(states, actions, i, j - 1, id);
      EveryRunKeepsRequests(states, actions, j - 1, id);
      HeardIsAccepted(states, actions, j - 1, id);
      HistoryKept(states[j - 1], actions[j - 1], id);
    }
  }
}
