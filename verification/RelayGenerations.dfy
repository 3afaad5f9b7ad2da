/**
 Which generation of an id a CLOSED is about. As long as no id that left the wanted set is requested
 again on the same socket, the frames in flight and the relay account for each id exactly once, so every
 CLOSED heard is about what the client has open, and a quiet relay runs exactly that.
 */
module RelayGenerations {
  import opened Options
  import opened RelaySession
  import opened RelayProtocol
  import opened RelayAgreement
  import C = RelayCoverage
  import F = RelayFence

  // ---- What the caller did on this socket ----

  predicate Leaves(e: Entry, id: Id) { e.LeftDesired? && id in e.ids }

  predicate Asks(e: Entry, id: Id) { e.Requested? && e.id == id }

  /** `id` has left the wanted set since the socket was opened. */
  predicate Left(log: seq<Entry>, id: Id) {
    if log == [] || log[|log| - 1].Connected? then false
    else Leaves(log[|log| - 1], id) || Left(log[..|log| - 1], id)
  }

  /** `id` has left the wanted set and then been requested again on the same socket. */
  predicate Reopened(log: seq<Entry>, id: Id) {
    if log == [] || log[|log| - 1].Connected? then false
    else
      var before, e := log[..|log| - 1], log[|log| - 1];
      (Asks(e, id) && Left(before, id)) || Reopened(before, id)
  }

  lemma LogSnoc(log: seq<Entry>, e: Entry, id: Id)
    ensures Left(log + [e], id) <==> !e.Connected? && (Leaves(e, id) || Left(log, id))
    ensures Reopened(log + [e], id) <==> !e.Connected? && ((Asks(e, id) && Left(log, id)) || Reopened(log, id))
  {
    assert (log + [e])[..|log|] == log;
  }

  lemma {:induction false} ReopenedHasLeft(log: seq<Entry>, id: Id)
    requires Reopened(log, id)
    ensures Left(log, id)
  {
    if !Left(log[..|log| - 1], id) {
      ReopenedHasLeft(log[..|log| - 1], id);
    }
  }

  // ---- Every subscription of one id, wherever it is ----

  function Reqs(up: seq<Frame>, id: Id): nat {
    if up == [] then 0
    else Reqs(up[..|up| - 1], id) + (if up[|up| - 1].Req? && up[|up| - 1].id == id then 1 else 0)
  }

  function Closeds(down: seq<F.Reply>, id: Id): nat {
    if down == [] then 0
    else Closeds(down[..|down| - 1], id) + (if down[|down| - 1].Closed? && down[|down| - 1].id == id then 1 else 0)
  }

  lemma ReqsSnoc(up: seq<Frame>, f: Frame, id: Id)
    ensures Reqs(up + [f], id) == Reqs(up, id) + (if f.Req? && f.id == id then 1 else 0)
  {
    assert (up + [f])[..|up|] == up;
  }

  lemma {:induction false} ReqsHead(up: seq<Frame>, id: Id)
    requires up != []
    ensures Reqs(up, id) == (if up[0].Req? && up[0].id == id then 1 else 0) + Reqs(up[1..], id)
  {
    var init := up[..|up| - 1];
    if init != [] {
      ReqsHead(init, id);
      assert init[1..] == up[1..][..|up| - 2];
    }
  }

  lemma ClosedsSnoc(down: seq<F.Reply>, r: F.Reply, id: Id)
    ensures Closeds(down + [r], id) == Closeds(down, id) + (if r.Closed? && r.id == id then 1 else 0)
  {
    assert (down + [r])[..|down|] == down;
  }

  lemma {:induction false} ClosedsHead(down: seq<F.Reply>, id: Id)
    requires down != []
    ensures Closeds(down, id) == (if down[0].Closed? && down[0].id == id then 1 else 0) + Closeds(down[1..], id)
  {
    var init := down[..|down| - 1];
    if init != [] {
      ClosedsHead(init, id);
      assert init[1..] == down[1..][..|down| - 2];
    }
  }

  /** REQs on their way, a subscription running, CLOSEDs on their way back. */
  function Count(w: F.Wire, id: Id): nat {
    Reqs(w.up, id) + (if id in w.relay then 1 else 0) + Closeds(w.down, id)
  }

  predicate NoClose(up: seq<Frame>, id: Id) { Close(id) !in up }

  lemma RelayCounts(w: F.Wire, r: F.RelayStep, id: Id)
    requires F.RelayMay(w, r)
    ensures var v := F.RelayNext(w, r);
            && Count(v, id) <= Count(w, id)
            && (NoClose(w.up, id) && Count(w, id) <= 1 ==> Count(v, id) == Count(w, id) && NoClose(v.up, id))
  {
    if w.up != [] { ReqsHead(w.up, id); }
    match r
    case Accepts =>
    case Refuses(message) => ClosedsSnoc(w.down, F.Closed(w.up[0].id, message), id);
    case HearsClose =>
    case SendsEvent(e, event) => ClosedsSnoc(w.down, F.Event(e, event), id);
    case SendsEose(e) => ClosedsSnoc(w.down, F.Eose(e), id);
    case Drops(gone, message) => ClosedsSnoc(w.down, F.Closed(gone, message), id);
  }

  lemma RelayStartsNothing(w: F.Wire, r: F.RelayStep, id: Id)
    requires F.RelayMay(w, r) && F.Will(F.RelayNext(w, r), id).Some?
    ensures F.Will(w, id).Some?
  {
    if w.up != [] { F.LastUpHead(w.up, id); }
  }

  lemma {:induction false} LastReqCounts(up: seq<Frame>, id: Id)
    requires F.LastUp(up, id).Some? && F.LastUp(up, id).value.Req?
    ensures Reqs(up, id) > 0
  {
    if up[|up| - 1].id != id {
      LastReqCounts(up[..|up| - 1], id);
    }
  }

  /** What will run is counted: a REQ on its way, or the subscription itself. */
  lemma WillIsCounted(w: F.Wire, id: Id)
    requires F.Will(w, id).Some?
    ensures Reqs(w.up, id) > 0 || id in w.relay
  {
    if F.LastUp(w.up, id).Some? {
      LastReqCounts(w.up, id);
    }
  }

  // ---- The client's side: what stays wanted stays as it is ----

  predicate AsOpen(open: map<Id, Filter>, id: Id, subs: seq<Subscription>) {
    id in open ==> Subscription(id, open[id]) in subs
  }

  ghost predicate AllWanted(subs: seq<Subscription>, id: Id, wanted: seq<Subscription>) {
    forall x :: x in subs && x.id == id ==> x in wanted
  }

  /** What is open, being closed or about to be sent under `id` is what is wanted under it. */
  ghost predicate Bound(s: State, id: Id) {
    && AsOpen(s.open, id, Wanted(s))
    && (s.pc.Closing? ==> AsOpen(s.open, id, s.pc.snapshot) && AllWanted(s.pc.snapshot, id, Wanted(s)))
    && (s.pc.Sending? ==> AllWanted(s.pc.rest, id, Wanted(s)))
  }

  ghost predicate Steady(s: State, id: Id) { !Left(s.log, id) ==> Bound(s, id) }

  lemma BoundCarries(s: State, t: State, id: Id)
    requires Bound(s, id) && t.open == s.open && t.pc == s.pc && AllWanted(Wanted(s), id, Wanted(t))
    ensures Bound(t, id)
  {
  }

  lemma ReplacingKeepsWanted(desired: seq<Subscription>, transient: seq<Subscription>, subs: seq<Subscription>,
                             x: Subscription)
    requires x in desired + transient && x.id !in Departed(desired, subs)
    ensures x in subs + transient
  {
    if x in desired {
      assert FirstWith(subs, x.id) == Some(x);
    }
  }

  lemma WriterKeepsSteady(s: State, w: WriterStep, id: Id)
    requires Steady(s, id) && WriterMay(s, w)
    ensures Steady(WriterNext(s, w), id)
  {
    var t := WriterNext(s, w);
    if w.SetSubscriptions? {
      var gone := Departed(s.desired, w.subscriptions);
      LogSnoc(s.log, LeftDesired(gone), id);
      if id !in gone && !Left(s.log, id) {
        forall x | x in Wanted(s) && x.id == id
          ensures x in Wanted(t)
        {
          ReplacingKeepsWanted(s.desired, s.transient, w.subscriptions, x);
        }
        BoundCarries(s, t, id);
      }
    }
  }

  lemma RetiringKeepsSteady(s: State, gone: Id, id: Id)
    requires Steady(s, id)
    ensures Steady(Retired(s, gone), id)
  {
    LogSnoc(s.log, LeftDesired({gone}), id);
    if id != gone && !Left(s.log, id) {
      BoundCarries(s, Retired(s, gone), id);
    }
  }

  lemma FetchKeepsSteady(s: State, f: FetchStep, id: Id)
    requires Steady(s, id) && FetchMay(s, f)
    ensures Steady(FetchNext(s, f), id)
  {
    match f
    case Push(_) => assert forall x :: x in Wanted(s) ==> x in Wanted(FetchNext(s, f));
    case Retires(gone) => RetiringKeepsSteady(s, gone, id);
    case _ =>
  }

  lemma PassKeepsSteady(s: State, p: PassStep, id: Id)
    requires Steady(s, id) && PassMay(s, p)
    ensures Steady(PassNext(s, p), id)
  {
    match p
    case Connect => LogSnoc(s.log, Connected, id);
    case Snapshot => LogSnoc(s.log, Drained(s.removed), id);
    case RequestSent =>
      LogSnoc(s.log, Requested(s.pc.rest[0].id, s.now), id);
      assert s.pc.rest[0] in s.pc.rest;
    case _ =>
  }

  lemma FrameKeepsSteady(s: State, m: FrameStep, id: Id)
    requires Steady(s, id) && FrameMay(s, m)
    ensures Steady(FrameNext(s, m), id)
  {
    match m
    case EventForArchive(e) => LogSnoc(s.log, Healthy(e), id);
    case ClosedForSubscription(e, message) => LogSnoc(s.log, Closed(e, message, s.now), id);
    case EoseForSubscription(e) => LogSnoc(s.log, Eose(e), id);
    case Settle => RetiringKeepsSteady(s, s.pc.id, id);
    case _ =>
  }

  // ---- One count per id ----

  ghost predicate Tally(w: F.Wire, isOpen: bool, left: bool, reopened: bool, id: Id) {
    && (!left ==> Count(w, id) == (if isOpen then 1 else 0) && NoClose(w.up, id))
    && (!reopened ==> Count(w, id) <= 1 && (F.Will(w, id).Some? ==> isOpen))
  }

  ghost predicate Once(w: F.Wire, open: map<Id, Filter>, log: seq<Entry>, id: Id) {
    Tally(w, id in open, Left(log, id), Reopened(log, id), id)
  }

  lemma RelayKeepsTally(w: F.Wire, r: F.RelayStep, isOpen: bool, left: bool, reopened: bool, id: Id)
    requires F.RelayMay(w, r) && Tally(w, isOpen, left, reopened, id)
    ensures Tally(F.RelayNext(w, r), isOpen, left, reopened, id)
  {
    RelayCounts(w, r, id);
    if F.Will(F.RelayNext(w, r), id).Some? { RelayStartsNothing(w, r, id); }
  }

  lemma SendingCounts(w: F.Wire, f: Frame, id: Id)
    ensures Count(F.Sent(w, f), id) == Count(w, id) + (if f.Req? && f.id == id then 1 else 0)
    ensures NoClose(F.Sent(w, f).up, id) <==> NoClose(w.up, id) && f != Close(id)
    ensures f.id != id ==> F.Will(F.Sent(w, f), id) == F.Will(w, id)
    ensures f == Close(id) ==> F.Will(F.Sent(w, f), id).None?
  {
    ReqsSnoc(w.up, f, id);
    F.LastUpSnoc(w.up, f, id);
  }

  /** A REQ for an id that never left: nothing else of it is about. */
  lemma RequestKeepsTally(w: F.Wire, x: Subscription, left: bool, reopened: bool)
    requires Tally(w, false, left, reopened, x.id) && !left && !reopened
    ensures Tally(F.Sent(w, Req(x.id, x.filter)), true, left, reopened, x.id)
  {
    SendingCounts(w, Req(x.id, x.filter), x.id);
  }

  lemma RequestKeepsOnce(w: F.Wire, x: Subscription, open: map<Id, Filter>, log: seq<Entry>, now: nat, id: Id)
    requires Once(w, open, log, id) && (x.id == id && !Left(log, id) ==> id !in open)
    ensures Once(F.Sent(w, Req(x.id, x.filter)), open[x.id := x.filter], log + [Requested(x.id, now)], id)
  {
    LogSnoc(log, Requested(x.id, now), id);
    if x.id != id {
      SendingCounts(w, Req(x.id, x.filter), id);
    } else if !Left(log, id) {
      if Reopened(log, id) { ReopenedHasLeft(log, id); }
      RequestKeepsTally(w, x, Left(log, id), Reopened(log, id));
    }
  }

  lemma CloseKeepsOnce(w: F.Wire, gone: Id, open: map<Id, Filter>, log: seq<Entry>, id: Id)
    requires Once(w, open, log, id) && Left(log, gone)
    ensures Once(F.Sent(w, Close(gone)), open - {gone}, log, id)
  {
    SendingCounts(w, Close(gone), id);
  }

  lemma NotingKeepsOnce(w: F.Wire, open: map<Id, Filter>, log: seq<Entry>, e: Entry, id: Id)
    requires Once(w, open, log, id) && !e.Connected? && !e.Requested?
    ensures Once(w, open, log + [e], id)
  {
    LogSnoc(log, e, id);
  }

  /** Taking a reply off the socket; a CLOSED makes the client forget the id. */
  lemma TakingKeepsOnce(w: F.Wire, open: map<Id, Filter>, log: seq<Entry>, id: Id)
    requires Once(w, open, log, id) && w.down != []
    ensures Once(F.Taken(w), if w.down[0].Closed? then open - {w.down[0].id} else open, log, id)
  {
    ClosedsHead(w.down, id);
    if F.Will(w, id).Some? { WillIsCounted(w, id); }
  }

  ghost predicate Kept(j: Joint, id: Id) {
    Steady(j.client, id) && Once(j.wire, j.client.open, j.client.log, id)
  }

  /** A REQ that is due, for an id that never left, is for an id that is not open. */
  lemma DueIsNotOpen(s: State, id: Id)
    requires Steady(s, id) && C.Names(s) && PassMay(s, RequestSent) && s.pc.rest[0].id == id && !Left(s.log, id)
    ensures id !in s.open
  {
    C.WantedIsConsistent(s);
    assert s.pc.rest[0] in s.pc.rest;
  }

  /** What a pass CLOSEs has left. */
  lemma StaleHasLeft(s: State, gone: Id)
    requires Steady(s, gone) && PassMay(s, CloseSent(gone))
    ensures Left(s.log, gone)
  {
    assert Subscription(gone, s.open[gone]) !in s.pc.snapshot;
  }

  lemma SendKeepsOnce(w: F.Wire, s: State, id: Id)
    requires Steady(s, id) && Once(w, s.open, s.log, id) && C.Names(s) && PassMay(s, RequestSent)
    ensures var t := PassNext(s, RequestSent);
            Once(F.Sent(w, Req(s.pc.rest[0].id, s.pc.rest[0].filter)), t.open, t.log, id)
  {
    if s.pc.rest[0].id == id && !Left(s.log, id) { DueIsNotOpen(s, id); }
    RequestKeepsOnce(w, s.pc.rest[0], s.open, s.log, s.now, id);
  }

  lemma ConnectingKeepsOnce(s: State, id: Id)
    requires PassMay(s, Connect)
    ensures var t := PassNext(s, Connect); Once(F.NEW, t.open, t.log, id)
  {
    LogSnoc(s.log, Connected, id);
  }

  lemma PassKeepsOnce(j: Joint, p: PassStep, id: Id)
    requires Kept(j, id) && C.Names(j.client) && PassMay(j.client, p) && (p.CloseSent? ==> Kept(j, p.id))
    ensures var t := StepNext(j, Local(ByPass(p))); Once(t.wire, t.client.open, t.client.log, id)
  {
    var s, w := j.client, j.wire;
    match p
    case Connect => ConnectingKeepsOnce(s, id);
    case Snapshot => NotingKeepsOnce(w, s.open, s.log, Drained(s.removed), id);
    case RequestSent => SendKeepsOnce(w, s, id);
    case CloseSent(gone) =>
      StaleHasLeft(s, gone);
      CloseKeepsOnce(w, gone, s.open, s.log, id);
    case _ =>
  }

  lemma FetchKeepsOnce(w: F.Wire, s: State, f: FetchStep, id: Id)
    requires Once(w, s.open, s.log, id) && FetchMay(s, f)
    ensures var t := FetchNext(s, f); Once(w, t.open, t.log, id)
  {
    match f
    case Retires(gone) => NotingKeepsOnce(w, s.open, s.log, LeftDesired({gone}), id);
    case _ =>
  }

  lemma WriterKeepsOnce(w: F.Wire, s: State, x: WriterStep, id: Id)
    requires Once(w, s.open, s.log, id) && WriterMay(s, x)
    ensures var t := WriterNext(s, x); Once(w, t.open, t.log, id)
  {
    if x.SetSubscriptions? {
      NotingKeepsOnce(w, s.open, s.log, LeftDesired(Departed(s.desired, x.subscriptions)), id);
    }
  }

  lemma LocalFrameKeepsOnce(w: F.Wire, s: State, m: FrameStep, id: Id)
    requires Once(w, s.open, s.log, id) && FrameMay(s, m) && IsLocal(ByFrame(m))
    ensures var t := FrameNext(s, m); Once(w, t.open, t.log, id)
  {
    if m.Settle? { NotingKeepsOnce(w, s.open, s.log, LeftDesired({s.pc.id}), id); }
  }

  function Note(m: FrameStep, now: nat): seq<Entry> {
    match m
    case EventForArchive(id) => [Healthy(id)]
    case ClosedForSubscription(id, message) => [Closed(id, message, now)]
    case EoseForSubscription(id) => [Eose(id)]
    case _ => []
  }

  lemma HearingNotes(s: State, reply: F.Reply, m: FrameStep)
    requires FrameMay(s, m) && Answers(s, reply, m)
    ensures FrameNext(s, m).open == if reply.Closed? then s.open - {reply.id} else s.open
    ensures FrameNext(s, m).log == s.log + Note(m, s.now)
  {
  }

  lemma HearingKeepsOnce(j: Joint, m: FrameStep, id: Id)
    requires Once(j.wire, j.client.open, j.client.log, id) && StepMay(j, Hears(m))
    ensures var t := StepNext(j, Hears(m)); Once(t.wire, t.client.open, t.client.log, id)
  {
    var s, w := j.client, j.wire;
    TakingKeepsOnce(w, s.open, s.log, id);
    HearingNotes(s, w.down[0], m);
    if Note(m, s.now) != [] {
      NotingKeepsOnce(F.Taken(w), FrameNext(s, m).open, s.log, Note(m, s.now)[0], id);
    } else {
      assert s.log + [] == s.log;
    }
  }

  lemma LocalKept(j: Joint, a: Action, id: Id)
    requires Kept(j, id) && C.Names(j.client) && StepMay(j, Local(a))
    requires a.ByPass? && a.p.CloseSent? ==> Kept(j, a.p.id)
    ensures Kept(StepNext(j, Local(a)), id)
  {
    match a
    case Tick(_) =>
    case ByWriter(w) =>
      WriterKeepsSteady(j.client, w, id);
      WriterKeepsOnce(j.wire, j.client, w, id);
    case ByFetch(f) =>
      FetchKeepsSteady(j.client, f, id);
      FetchKeepsOnce(j.wire, j.client, f, id);
    case ByPass(p) =>
      PassKeepsSteady(j.client, p, id);
      PassKeepsOnce(j, p, id);
    case ByFrame(m) =>
      FrameKeepsSteady(j.client, m, id);
      LocalFrameKeepsOnce(j.wire, j.client, m, id);
  }

  lemma StepKept(j: Joint, x: Step, id: Id)
    requires Kept(j, id) && C.Names(j.client) && StepMay(j, x)
    requires x.Local? && x.a.ByPass? && x.a.p.CloseSent? ==> Kept(j, x.a.p.id)
    ensures Kept(StepNext(j, x), id)
  {
    match x
    case Local(a) => LocalKept(j, a, id);
    case Hears(m) =>
      FrameKeepsSteady(j.client, m, id);
      HearingKeepsOnce(j, m, id);
    case Relays(r) =>
      var s := j.client;
      RelayKeepsTally(j.wire, r, id in s.open, Left(s.log, id), Reopened(s.log, id), id);
  }

  lemma {:induction false} EveryJointRunKeeps(states: seq<Joint>, steps: seq<Step>, i: nat, id: Id)
    requires JointRun(states, steps) && i < |states|
    ensures Kept(states[i], id)
    decreases i
  {
    if i > 0 {
      EveryJointRunKeeps(states, steps, i - 1, id);
      EveryJointRunKeepsInv(states, steps, i - 1);
      var x := steps[i - 1];
      if x.Local? && x.a.ByPass? && x.a.p.CloseSent? {
        EveryJointRunKeeps(states, steps, i - 1, x.a.p.id);
      }
      StepKept(states[i - 1], x, id);
    }
  }

  // ---- What follows ----

  /** The client forgets an id on a CLOSED although the relay runs it, or is about to. */
  predicate StaleClosed(j: Joint, x: Step) {
    && x.Hears? && j.wire.down != [] && j.wire.down[0].Closed? && j.wire.down[0].id in j.client.open
    && F.Will(j.wire, j.wire.down[0].id).Some?
  }

  /**
   Every CLOSED heard is about the subscription the client has open, unless the caller put the id back on this
   socket.
   */
  lemma StaleClosedNeedsReopening(states: seq<Joint>, steps: seq<Step>, i: nat)
    requires JointRun(states, steps) && i < |steps| && StaleClosed(states[i], steps[i])
    ensures Reopened(states[i].client.log, states[i].wire.down[0].id)
    ensures Left(states[i].client.log, states[i].wire.down[0].id)
  {
    var w := states[i].wire;
    var id := w.down[0].id;
    EveryJointRunKeeps(states, steps, i, id);
    ClosedsHead(w.down, id);
    WillIsCounted(w, id);
    assert Reopened(states[i].client.log, id);
    ReopenedHasLeft(states[i].client.log, id);
  }

  /**
   At rest on a quiet socket the relay runs, of the ids the caller has not put back after taking them away,
   exactly those the client has open, wanted or not.
   */
  lemma QuietMeansEqual(states: seq<Joint>, steps: seq<Step>, i: nat, id: Id)
    requires JointRun(states, steps) && i < |states|
    requires AtRest(states[i].client) && Quiet(states[i].wire) && !Reopened(states[i].client.log, id)
    ensures var s, w := states[i].client, states[i].wire;
            id in w.relay <==> id in s.open
    ensures var s, w := states[i].client, states[i].wire;
            id in w.relay ==> w.relay[id] == F.Served(s.open[id], false) && C.Named(Wanted(s), id)
  {
    var s, w := states[i].client, states[i].wire;
    EveryJointRunKeeps(states, steps, i, id);
    QuietMeansAgreed(states, steps, i);
    EveryJointRunKeepsInv(states, steps, i);
    if id in w.relay {
      assert F.Will(w, id).Some?;
    }
  }
}
