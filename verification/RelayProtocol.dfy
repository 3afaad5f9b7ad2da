/**
 The relay session as a transition system. Writers (`set_subscriptions`,
 `fetch_events`) and the socket loop interleave at every await: each action below
 is one stretch of the source between two of them, under at most one lock.
 */
module RelayProtocol {
  import opened Options
  import opened RelayClosed
  import opened RelaySession

  datatype Event = Event(json: string)

  /** What a finite request ends with. */
  datatype Outcome = Fetched(events: seq<Event>) | Failed(reason: string)

  /** Where one `fetch_events` call stands. */
  datatype Fetch =
    | Registered(filter: Filter)   // in `requests`, not yet in `transient`
    | Waiting                      // awaiting the result, the timeout or cancellation
    | Leaving(outcome: Outcome)    // about to forget the request
    | Left(outcome: Outcome)       // out of `requests`, not yet out of `transient`
    | Returning(outcome: Outcome)  // retired, about to post its wake
    | Done(outcome: Outcome)

  /** Where the socket loop stands. */
  datatype Pc =
    | Down                                     // no socket
    | Start                                    // at the top of `reconcile`
    | Closing(snapshot: seq<Subscription>)     // sending CLOSEs
    | Sending(rest: seq<Subscription>)         // sending REQs
    | Idle                                     // in `select!`
    | Pushing(id: Id, event: Event)            // a verified event on its way into its request
    | Settling(id: Id)                         // request completed, `transient` not yet updated
    | Posting                                  // settled, about to post a wake

  /** What the discipline theorems speak about; not part of the program's memory. */
  datatype Entry =
    | Connected
    | Requested(id: Id, at: nat)
    | Closed(id: Id, message: string, at: nat)
    | Eose(id: Id)
    | Healthy(id: Id)
    | Drained(ids: set<Id>)
    | LeftDesired(ids: set<Id>)

  datatype State = State(
    now: nat,
    // behind the state lock
    desired: seq<Subscription>, transient: seq<Subscription>, removed: set<Id>,
    // behind the requests lock, and the result of each completed oneshot
    requests: map<Id, seq<Event>>, settled: map<Id, Outcome>,
    // the capacity-one wake channel, and who has written but not yet posted to it
    wake: bool, writers: nat, owing: set<Id>,
    fetches: map<Id, Fetch>,
    // the socket loop
    pc: Pc, open: map<Id, Filter>, retries: map<Id, ClosedRetry>,
    // history: departures per id, the departure count each retry entry was minted at,
    // every id ever named, verified events accepted per request, and the socket log
    generation: map<Id, nat>, minted: map<Id, nat>, known: set<Id>,
    heard: map<Id, seq<Event>>, log: seq<Entry>)

  /** The archive's `set_subscriptions`. */
  datatype WriterStep = SetSubscriptions(subscriptions: seq<Subscription>) | WriterPosts

  /** One `fetch_events` call. */
  datatype FetchStep =
    | Register(id: Id, filter: Filter)
    | Push(id: Id)
    | Posts(id: Id)
    | Resolves(id: Id, outcome: Outcome)
    | Forgets(id: Id)
    | Retires(id: Id)
    | Returns(id: Id)

  /** The socket loop: connecting, `reconcile`, and the arms that lead into it. */
  datatype PassStep =
    | Connect
    | Snapshot
    | CloseSent(id: Id)
    | ClosesDone
    | RequestSkipped
    | RequestSent
    | WriteFails
    | PassDone
    | Receive
    | TimerFires
    | SocketDrops

  /** The socket loop: one relay message, by the branch it takes. */
  datatype FrameStep =
    | Ignored                                        // EVENT or CLOSED for an id not open, forged EVENT, the rest
    | EventForRequest(id: Id, event: Event)          // verified, the request is pending
    | EventPushed
    | EventForArchive(id: Id)
    | ClosedForRequest(id: Id, message: string)
    | ClosedForSubscription(id: Id, message: string)
    | EoseForRequest(id: Id)
    | EoseForSubscription(id: Id)
    | Settle
    | LoopPosts

  datatype Action =
    | Tick(elapsed: nat)
    | ByWriter(w: WriterStep)
    | ByFetch(f: FetchStep)
    | ByPass(p: PassStep)
    | ByFrame(m: FrameStep)

  const Init := State(0, [], [], {}, map[], map[], false, 0, {}, map[], Down, map[], map[],
                      map[], map[], {}, map[], [])

  function Wanted(s: State): seq<Subscription> { s.desired + s.transient }

  /** A reconcile is promised: a wake is queued, or someone is about to queue one. */
  predicate Promised(s: State) { s.wake || s.writers > 0 || s.owing != {} || s.pc.Posting? }

  function Departures(generation: map<Id, nat>, id: Id): nat {
    if id in generation then generation[id] else 0
  }

  function Bump(generation: map<Id, nat>, ids: set<Id>): (g: map<Id, nat>)
    ensures forall id :: Departures(g, id) == Departures(generation, id) + (if id in ids then 1 else 0)
  {
    map id | id in generation.Keys + ids :: Departures(generation, id) + (if id in ids then 1 else 0)
  }

  function Elapsed(retries: map<Id, ClosedRetry>, now: nat): map<Id, ClosedRetry> {
    map id | id in retries :: retries[id].Elapse(now)
  }

  // ---- Writers ----

  /** Caller contract: one filter per id within a set, and ids disjoint from those of finite requests. */
  ghost predicate WriterMay(s: State, w: WriterStep) {
    match w
    case SetSubscriptions(subs) => OneFilterPerId(subs) && Ids(subs) !! s.fetches.Keys
    case WriterPosts => s.writers > 0
  }

  function WriterNext(s: State, w: WriterStep): State
    requires w.WriterPosts? ==> s.writers > 0
  {
    match w
    case SetSubscriptions(subs) =>
      var gone := Departed(s.desired, subs);
      s.(desired := subs, removed := s.removed + gone, writers := s.writers + 1,
         generation := Bump(s.generation, gone), known := s.known + Ids(subs), log := s.log + [LeftDesired(gone)])
    case WriterPosts => s.(wake := true, writers := s.writers - 1)
  }

  // ---- Finite requests ----

  /** Request ids are fresh; a call resolves with what its oneshot received, or fails on its own. */
  predicate FetchMay(s: State, f: FetchStep) {
    match f
    case Register(id, _) => id !in s.known
    case Push(id) => id in s.fetches && s.fetches[id].Registered?
    case Posts(id) => id in s.owing && id in s.fetches && s.fetches[id].Waiting?
    case Resolves(id, outcome) =>
      && id in s.fetches && s.fetches[id].Waiting? && id !in s.owing
      && (outcome.Failed? || (id in s.settled && s.settled[id] == outcome))
    case Forgets(id) => id in s.fetches && s.fetches[id].Leaving?
    case Retires(id) => id in s.fetches && s.fetches[id].Left?
    case Returns(id) => id in s.owing && id in s.fetches && s.fetches[id].Returning?
  }

  function FetchNext(s: State, f: FetchStep): State
    requires FetchMay(s, f)
  {
    match f
    case Register(id, filter) =>
      s.(requests := s.requests[id := []], fetches := s.fetches[id := Registered(filter)],
         known := s.known + {id}, heard := s.heard[id := []])
    case Push(id) =>
      s.(transient := s.transient + [Subscription(id, s.fetches[id].filter)], owing := s.owing + {id},
         fetches := s.fetches[id := Waiting])
    case Posts(id) => s.(wake := true, owing := s.owing - {id})
    case Resolves(id, outcome) => s.(fetches := s.fetches[id := Leaving(outcome)])
    case Forgets(id) =>
      s.(requests := s.requests - {id}, fetches := s.fetches[id := Left(s.fetches[id].outcome)])
    case Retires(id) =>
      Retired(s, id).(owing := s.owing + {id}, fetches := s.fetches[id := Returning(s.fetches[id].outcome)])
    case Returns(id) =>
      s.(wake := true, owing := s.owing - {id}, fetches := s.fetches[id := Done(s.fetches[id].outcome)])
  }

  /** The state-lock section that ends a finite request. */
  function Retired(s: State, id: Id): State {
    s.(transient := Without(s.transient, id), removed := s.removed + {id},
       generation := Bump(s.generation, {id}), log := s.log + [LeftDesired({id})])
  }

  // ---- The socket loop: reconciling ----

  ghost predicate PassMay(s: State, p: PassStep) {
    match p
    case Connect => s.pc.Down?
    case Snapshot => s.pc.Start?
    case CloseSent(id) => s.pc.Closing? && id in Stale(s.open, s.pc.snapshot)
    case ClosesDone => s.pc.Closing? && Stale(s.open, s.pc.snapshot) == {}
    case RequestSkipped => s.pc.Sending? && s.pc.rest != [] && Decide(s.open, s.retries, s.pc.rest[0], s.now) != Send
    case RequestSent => s.pc.Sending? && s.pc.rest != [] && Decide(s.open, s.retries, s.pc.rest[0], s.now) == Send
    case WriteFails => s.pc.Closing? || s.pc.Sending?
    case PassDone => s.pc == Sending([])
    case Receive => s.pc.Idle? && s.wake
    case TimerFires => s.pc.Idle? && exists id :: id in s.retries && Due(s.retries[id], s.now)
    case SocketDrops => s.pc.Idle?
  }

  predicate Due(r: ClosedRetry, now: nat) { r.dueAt.Some? && r.dueAt.value <= now }

  ghost function PassNext(s: State, p: PassStep): State
    requires PassMay(s, p)
  {
    match p
    case Connect =>
      s.(pc := Start, open := map[], retries := map[], minted := map[], log := s.log + [Connected])
    case Snapshot =>
      s.(pc := Closing(Wanted(s)), removed := {}, retries := s.retries - s.removed,
         log := s.log + [Drained(s.removed)])
    case CloseSent(id) => s.(open := s.open - {id})
    case ClosesDone => s.(pc := Sending(s.pc.snapshot))
    case RequestSkipped => s.(pc := Sending(s.pc.rest[1..]))
    case RequestSent =>
      var sub := s.pc.rest[0];
      s.(pc := Sending(s.pc.rest[1..]), open := s.open[sub.id := sub.filter],
         log := s.log + [Requested(sub.id, s.now)])
    case WriteFails => s.(pc := Down)
    case PassDone => s.(pc := Idle)
    case Receive => s.(pc := Start, wake := false)
    case TimerFires => s.(pc := Start, retries := Elapsed(s.retries, s.now))
    case SocketDrops => s.(pc := Down)
  }

  // ---- The socket loop: relay messages ----

  predicate FrameMay(s: State, m: FrameStep) {
    match m
    case Ignored => s.pc.Idle?
    case EventForRequest(id, _) => s.pc.Idle? && id in s.open && id in s.requests
    case EventPushed => s.pc.Pushing?
    case EventForArchive(id) => s.pc.Idle? && id in s.open && id !in s.requests
    case ClosedForRequest(id, _) => s.pc.Idle? && id in s.open && id in s.requests
    case ClosedForSubscription(id, _) => s.pc.Idle? && id in s.open && id !in s.requests
    case EoseForRequest(id) => s.pc.Idle? && id in s.requests
    case EoseForSubscription(id) => s.pc.Idle? && id !in s.requests
    case Settle => s.pc.Settling?
    case LoopPosts => s.pc.Posting?
  }

  function FrameNext(s: State, m: FrameStep): State
    requires FrameMay(s, m)
  {
    match m
    case Ignored => s
    case EventForRequest(id, event) =>
      s.(pc := Pushing(id, event), heard := s.heard[id := Heard(s, id) + [event]])
    case EventPushed =>
      var id := s.pc.id;
      s.(pc := Idle,
         requests := if id in s.requests then s.requests[id := s.requests[id] + [s.pc.event]] else s.requests)
    case EventForArchive(id) => s.(retries := s.retries - {id}, log := s.log + [Healthy(id)])
    case ClosedForRequest(id, message) =>
      s.(pc := Settling(id), open := s.open - {id}, requests := s.requests - {id},
         settled := s.settled[id := Failed("relay closed request: " + message)])
    case ClosedForSubscription(id, message) =>
      s.(open := s.open - {id}, retries := s.retries[id := RetryEntry(s, id).Schedule(message, s.now)],
         minted := if id in s.retries then s.minted else s.minted[id := Departures(s.generation, id)],
         log := s.log + [Closed(id, message, s.now)])
    case EoseForRequest(id) =>
      s.(pc := Settling(id), requests := s.requests - {id}, settled := s.settled[id := Fetched(s.requests[id])])
    case EoseForSubscription(id) =>
      s.(retries := s.retries - {id}, wake := s.wake || id !in s.open, log := s.log + [Eose(id)])
    case Settle => Retired(s, s.pc.id).(pc := Posting)
    case LoopPosts => s.(pc := Idle, wake := true)
  }

  /** `retries.entry(id).or_default()`. */
  function RetryEntry(s: State, id: Id): ClosedRetry { if id in s.retries then s.retries[id] else FRESH }

  function Heard(s: State, id: Id): seq<Event> { if id in s.heard then s.heard[id] else [] }

  // ---- Runs ----

  ghost predicate Enabled(s: State, a: Action) {
    match a
    case Tick(_) => true
    case ByWriter(w) => WriterMay(s, w)
    case ByFetch(f) => FetchMay(s, f)
    case ByPass(p) => PassMay(s, p)
    case ByFrame(m) => FrameMay(s, m)
  }

  ghost function Next(s: State, a: Action): State
    requires Enabled(s, a)
  {
    match a
    case Tick(elapsed) => s.(now := s.now + elapsed)
    case ByWriter(w) => WriterNext(s, w)
    case ByFetch(f) => FetchNext(s, f)
    case ByPass(p) => PassNext(s, p)
    case ByFrame(m) => FrameNext(s, m)
  }

  /** Every interleaving: a run is any sequence of enabled actions from the initial state. */
  ghost predicate Run(states: seq<State>, actions: seq<Action>) {
    && |states| == |actions| + 1
    && states[0] == Init
    && forall i :: 0 <= i < |actions| ==> Enabled(states[i], actions[i]) && states[i + 1] == Next(states[i], actions[i])
  }
}
