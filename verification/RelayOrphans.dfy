/**
 What the EOSE fence does not repair: when the caller puts an id back on the same socket and takes it
 away again, a CLOSED from the earlier generation can leave the relay running what nothing will close.
 */
module RelayOrphans {
  import opened Options
  import opened RelayClosed
  import opened RelaySession
  import opened RelayProtocol
  import opened RelayAgreement
  import opened RelayGenerations
  import C = RelayCoverage
  import F = RelayFence

  /** Runs at the relay, or will, but no pass of the client will ever name it again. */
  ghost predicate Orphan(j: Joint, id: Id) {
    var s := j.client;
    && F.Will(j.wire, id).Some?
    && id !in s.open && id in s.known && id !in s.fetches
    && !C.Named(Wanted(s), id)
    && (s.pc.Closing? ==> !C.Named(s.pc.snapshot, id))
    && (s.pc.Sending? ==> !C.Named(s.pc.rest, id))
  }

  /** The caller wants the id again, the relay gives it up, or the socket ends. */
  predicate Rescues(j: Joint, x: Step, id: Id) {
    match x
    case Local(ByWriter(SetSubscriptions(subs))) => id in Ids(subs)
    case Local(ByPass(Connect)) => true
    case Relays(Drops(gone, _)) => gone == id
    case Relays(Refuses(_)) => j.wire.up != [] && j.wire.up[0].id == id
    case _ => false
  }

  // ---- An orphan stays one ----

  lemma FetchKeepsUnnamed(s: State, f: FetchStep, id: Id)
    requires FetchMay(s, f) && id in s.known && id !in s.fetches && !C.Named(Wanted(s), id)
    ensures var t := FetchNext(s, f); id in t.known && id !in t.fetches && !C.Named(Wanted(t), id)
  {
    var t := FetchNext(s, f);
    forall x | x in Wanted(t)
      ensures x.id != id
    {
      assert x in Wanted(s) || (f.Push? && x.id == f.id);
    }
  }

  lemma FetchKeepsPc(s: State, f: FetchStep)
    requires FetchMay(s, f)
    ensures FetchNext(s, f).pc == s.pc
  {
  }

  lemma FetchKeepsOrphan(j: Joint, f: FetchStep, id: Id)
    requires Orphan(j, id) && FetchMay(j.client, f)
    ensures Orphan(StepNext(j, Local(ByFetch(f))), id)
  {
    FetchKeepsUnnamed(j.client, f, id);
    FetchKeepsPc(j.client, f);
    FetchLeavesSocket(j.client, f);
  }

  lemma WriterKeepsOrphan(j: Joint, w: WriterStep, id: Id)
    requires Orphan(j, id) && WriterMay(j.client, w) && !Rescues(j, Local(ByWriter(w)), id)
    ensures Orphan(StepNext(j, Local(ByWriter(w))), id)
  {
    var t := WriterNext(j.client, w);
    forall x | x in Wanted(t)
      ensures x.id != id
    {
      assert x in Wanted(j.client) || (w.SetSubscriptions? && x.id in Ids(w.subscriptions));
    }
  }

  lemma PassKeepsWire(j: Joint, p: PassStep, id: Id)
    requires Orphan(j, id) && PassMay(j.client, p) && !p.Connect?
    ensures F.Will(WireAfter(j.wire, j.client, ByPass(p)), id) == F.Will(j.wire, id)
  {
    var s := j.client;
    match p
    case RequestSent =>
      assert s.pc.rest[0] in s.pc.rest;
      F.LastUpSnoc(j.wire.up, Req(s.pc.rest[0].id, s.pc.rest[0].filter), id);
    case CloseSent(gone) => F.LastUpSnoc(j.wire.up, Close(gone), id);
    case _ =>
  }

  lemma PassKeepsUnnamed(s: State, p: PassStep, id: Id)
    requires PassMay(s, p) && !C.Named(Wanted(s), id) && id !in s.open
    requires s.pc.Closing? ==> !C.Named(s.pc.snapshot, id)
    requires s.pc.Sending? ==> !C.Named(s.pc.rest, id)
    ensures var t := PassNext(s, p);
            && id !in t.open
            && (t.pc.Closing? ==> !C.Named(t.pc.snapshot, id))
            && (t.pc.Sending? ==> !C.Named(t.pc.rest, id))
  {
    match p
    case RequestSent => assert s.pc.rest[0] in s.pc.rest;
    case _ =>
  }

  lemma PassLeavesCallers(s: State, p: PassStep)
    requires PassMay(s, p)
    ensures var t := PassNext(s, p); Wanted(t) == Wanted(s) && t.known == s.known && t.fetches == s.fetches
  {
  }

  lemma PassKeepsOrphan(j: Joint, p: PassStep, id: Id)
    requires Orphan(j, id) && PassMay(j.client, p) && !p.Connect?
    ensures Orphan(StepNext(j, Local(ByPass(p))), id)
  {
    PassKeepsWire(j, p, id);
    PassKeepsUnnamed(j.client, p, id);
    PassLeavesCallers(j.client, p);
  }

  lemma FrameOnlyForgets(s: State, m: FrameStep)
    requires FrameMay(s, m)
    ensures var t := FrameNext(s, m);
            && t.open.Keys <= s.open.Keys && t.known == s.known && t.fetches == s.fetches
            && !t.pc.Closing? && !t.pc.Sending?
  {
  }

  lemma FrameWantsNoMore(s: State, m: FrameStep, x: Subscription)
    requires FrameMay(s, m) && x in Wanted(FrameNext(s, m))
    ensures x in Wanted(s)
  {
    match m
    case Settle => assert FrameNext(s, m).transient == Without(s.transient, s.pc.id);
    case _ =>
  }

  lemma FrameKeepsUnnamed(s: State, m: FrameStep, id: Id)
    requires FrameMay(s, m) && !C.Named(Wanted(s), id)
    ensures !C.Named(Wanted(FrameNext(s, m)), id)
  {
    forall x | x in Wanted(FrameNext(s, m))
      ensures x.id != id
    {
      FrameWantsNoMore(s, m, x);
    }
  }

  lemma RelayKeepsOrphan(j: Joint, r: F.RelayStep, id: Id)
    requires Orphan(j, id) && F.RelayMay(j.wire, r) && !Rescues(j, Relays(r), id)
    ensures Orphan(StepNext(j, Relays(r)), id)
  {
    if j.wire.up != [] { F.LastUpHead(j.wire.up, id); }
  }

  lemma LocalKeepsOrphan(j: Joint, a: Action, id: Id)
    requires Orphan(j, id) && StepMay(j, Local(a)) && !Rescues(j, Local(a), id)
    ensures Orphan(StepNext(j, Local(a)), id)
  {
    match a
    case Tick(_) =>
    case ByWriter(w) => WriterKeepsOrphan(j, w, id);
    case ByFetch(f) => FetchKeepsOrphan(j, f, id);
    case ByPass(p) => PassKeepsOrphan(j, p, id);
    case ByFrame(m) =>
      FrameOnlyForgets(j.client, m);
      FrameKeepsUnnamed(j.client, m, id);
  }

  /** Nothing the client does on its own ends an orphan: no CLOSE is ever sent for it. */
  lemma OrphanStays(j: Joint, x: Step, id: Id)
    requires Orphan(j, id) && StepMay(j, x) && !Rescues(j, x, id)
    ensures Orphan(StepNext(j, x), id)
  {
    match x
    case Local(a) => LocalKeepsOrphan(j, a, id);
    case Hears(m) =>
      FrameOnlyForgets(j.client, m);
      FrameKeepsUnnamed(j.client, m, id);
    case Relays(r) => RelayKeepsOrphan(j, r, id);
  }

  /** Over any stretch of a run in which nobody rescues it. */
  lemma {:induction false} OrphanForGood(states: seq<Joint>, steps: seq<Step>, i: nat, k: nat, id: Id)
    requires JointRun(states, steps) && i <= k < |states| && Orphan(states[i], id)
    requires forall n :: i <= n < k ==> !Rescues(states[n], steps[n], id)
    ensures Orphan(states[k], id)
    decreases k
  {
    if k > i {
      OrphanForGood(states, steps, i, k - 1, id);
      OrphanStays(states[k - 1], steps[k - 1], id);
    }
  }

  // ---- How one comes about ----

  /** Only an id that left the wanted set and was requested again on this socket can be orphaned. */
  lemma OrphanNeedsReopening(states: seq<Joint>, steps: seq<Step>, i: nat, id: Id)
    requires JointRun(states, steps) && i < |states| && Orphan(states[i], id)
    ensures Reopened(states[i].client.log, id)
  {
    EveryJointRunKeeps(states, steps, i, id);
  }

  ghost predicate EndsIn(states: seq<Joint>, steps: seq<Step>, j: Joint) {
    JointRun(states, steps) && states[|steps|] == j
  }

  ghost predicate Reachable(j: Joint) { exists states, steps :: EndsIn(states, steps, j) }

  lemma Reach(j: Joint, x: Step) returns (k: Joint)
    requires Reachable(j) && StepMay(j, x)
    ensures k == StepNext(j, x) && Reachable(k)
  {
    k := StepNext(j, x);
    var states, steps :| EndsIn(states, steps, j);
    assert EndsIn(states + [k], steps + [x], k);
  }

  /** A client with no finite requests, seen from outside. */
  datatype View = View(desired: seq<Subscription>, pc: Pc, wake: bool, open: map<Id, Filter>, wire: F.Wire)

  ghost predicate Shows(j: Joint, v: View) {
    var s := j.client;
    && s.transient == [] && s.requests == map[] && s.fetches == map[] && s.writers == 0 && s.owing == {}
    && v == View(s.desired, s.pc, s.wake, s.open, j.wire)
  }

  /** No subscription is held back, or only ones whose departure the next pass drains. */
  ghost predicate Unheld(j: Joint) { forall id :: id in j.client.retries ==> id in j.client.removed }

  lemma Write(j: Joint, v: View, subs: seq<Subscription>) returns (k: Joint)
    requires Reachable(j) && Shows(j, v) && |subs| <= 1
    ensures Reachable(k) && Shows(k, v.(desired := subs, wake := true))
    ensures k.client.retries == j.client.retries
    ensures k.client.removed == j.client.removed + Departed(v.desired, subs)
  {
    k := Reach(j, Local(ByWriter(SetSubscriptions(subs))));
    k := Reach(k, Local(ByWriter(WriterPosts)));
  }

  lemma Pass(j: Joint, p: PassStep) returns (k: Joint)
    requires Reachable(j) && PassMay(j.client, p)
    ensures Reachable(k) && k == Joint(PassNext(j.client, p), WireAfter(j.wire, j.client, ByPass(p)))
  {
    k := Reach(j, Local(ByPass(p)));
  }

  lemma Wake(j: Joint, v: View) returns (k: Joint)
    requires Reachable(j) && Shows(j, v) && v.pc.Idle? && v.wake && Unheld(j)
    ensures Reachable(k) && Shows(k, v.(pc := Start, wake := false)) && Unheld(k)
  {
    k := Pass(j, Receive);
  }

  lemma Begin(j: Joint, v: View) returns (k: Joint)
    requires Reachable(j) && Shows(j, v) && v.pc.Start? && Unheld(j)
    ensures Reachable(k) && Shows(k, v.(pc := Closing(v.desired))) && k.client.retries == map[]
  {
    assert v.desired + [] == v.desired;
    k := Pass(j, Snapshot);
  }

  lemma CloseDone(j: Joint, v: View) returns (k: Joint)
    requires Reachable(j) && Shows(j, v) && v.pc == Closing(v.desired) && v.open == map[] && j.client.retries == map[]
    ensures Reachable(k) && Shows(k, v.(pc := Sending(v.desired))) && k.client.retries == map[]
  {
    k := Pass(j, ClosesDone);
  }

  lemma OpenPass(j: Joint, v: View, x: Subscription) returns (k: Joint)
    requires Reachable(j) && Shows(j, v) && v.pc.Start? && v.desired == [x] && v.open == map[] && Unheld(j)
    ensures Reachable(k) && k.client.retries == map[]
    ensures Shows(k, v.(pc := Idle, open := map[x.id := x.filter], wire := F.Sent(v.wire, Req(x.id, x.filter))))
  {
    k := Begin(j, v);
    k := CloseDone(k, v.(pc := Closing([x])));
    k := Pass(k, RequestSent);
    assert k.client.pc == Sending([]);
    k := Pass(k, PassDone);
  }

  lemma EmptyPass(j: Joint, v: View) returns (k: Joint)
    requires Reachable(j) && Shows(j, v) && v.pc.Start? && v.desired == [] && v.open == map[] && Unheld(j)
    ensures Reachable(k) && Shows(k, v.(pc := Idle)) && k.client.retries == map[]
  {
    k := Begin(j, v);
    k := CloseDone(k, v.(pc := Closing([])));
    k := Pass(k, PassDone);
  }

  lemma ClosePass(j: Joint, v: View, x: Subscription) returns (k: Joint)
    requires Reachable(j) && Shows(j, v) && Unheld(j)
    requires v.pc.Start? && v.desired == [] && v.open == map[x.id := x.filter]
    ensures Reachable(k) && Shows(k, v.(pc := Idle, open := map[], wire := F.Sent(v.wire, Close(x.id))))
    ensures k.client.retries == map[]
  {
    k := Begin(j, v);
    k := Pass(k, CloseSent(x.id));
    k := CloseDone(k, v.(pc := Closing([]), open := map[], wire := F.Sent(v.wire, Close(x.id))));
    k := Pass(k, PassDone);
  }

  lemma FirstOpen(x: Subscription) returns (k: Joint)
    ensures Reachable(k) && k.client.retries == map[]
    ensures Shows(k, View([x], Idle, true, map[x.id := x.filter], F.Sent(F.NEW, Req(x.id, x.filter))))
  {
    var j := Joint(Init, F.NEW);
    assert EndsIn([j], [], j);
    k := Write(j, View([], Down, false, map[], F.NEW), [x]);
    k := Pass(k, Connect);
    k := OpenPass(k, View([x], Start, true, map[], F.NEW), x);
  }

  /** The relay accepts a subscription and gives it up again; the CLOSED is on its way. */
  lemma RelayGivesUp(j: Joint, v: View, x: Subscription, message: string) returns (k: Joint)
    requires Reachable(j) && Shows(j, v) && v.wire == F.Sent(F.NEW, Req(x.id, x.filter)) && j.client.retries == map[]
    ensures Reachable(k) && Shows(k, v.(wire := F.Wire([], [F.Closed(x.id, message)], map[])))
    ensures k.client.retries == map[]
  {
    k := Reach(j, Relays(F.Accepts));
    k := Reach(k, Relays(F.Drops(x.id, message)));
  }

  /** The caller takes the subscription away while its CLOSED is in flight. */
  lemma TakenAway(x: Subscription, message: string) returns (j: Joint)
    ensures Reachable(j) && j.client.retries == map[]
    ensures Shows(j, View([], Idle, false, map[], F.Wire([Close(x.id)], [F.Closed(x.id, message)], map[])))
  {
    var reply, open := F.Wire([], [F.Closed(x.id, message)], map[]), map[x.id := x.filter];
    j := FirstOpen(x);
    j := RelayGivesUp(j, View([x], Idle, true, open, F.Sent(F.NEW, Req(x.id, x.filter))), x, message);
    j := Write(j, View([x], Idle, true, open, reply), []);
    j := Wake(j, View([], Idle, true, open, reply));
    j := ClosePass(j, View([], Start, false, open, reply), x);
    assert F.Sent(reply, Close(x.id)).up == [Close(x.id)];
  }

  /** The caller takes the subscription away and puts it back while its CLOSED is in flight, within its contract. */
  lemma StaleClosedHappens(x: Subscription, message: string) returns (j: Joint)
    ensures Reachable(j) && StepMay(j, Hears(ClosedForSubscription(x.id, message)))
    ensures StaleClosed(j, Hears(ClosedForSubscription(x.id, message)))
    ensures Shows(j, View([x], Idle, false, map[x.id := x.filter],
                          F.Wire([Close(x.id), Req(x.id, x.filter)], [F.Closed(x.id, message)], map[])))
    ensures j.client.retries == map[]
  {
    var closing := F.Wire([Close(x.id)], [F.Closed(x.id, message)], map[]);
    j := TakenAway(x, message);
    j := Write(j, View([], Idle, false, map[], closing), [x]);
    j := Wake(j, View([x], Idle, true, map[], closing));
    j := OpenPass(j, View([x], Start, false, map[], closing), x);
    assert F.Sent(closing, Req(x.id, x.filter)).up == [Close(x.id), Req(x.id, x.filter)];
  }

  /** Hearing the stale CLOSED, and then losing the subscription's last mention. */
  lemma ForgottenAndDropped(j: Joint, v: View, x: Subscription, message: string) returns (k: Joint)
    requires Reachable(j) && Shows(j, v) && j.client.retries == map[]
    requires v.desired == [x] && v.pc.Idle? && v.open == map[x.id := x.filter] && !v.wake
    requires v.wire.down == [F.Closed(x.id, message)]
    ensures Reachable(k) && k.client.retries == map[]
    ensures Shows(k, View([], Idle, false, map[], v.wire.(down := [])))
  {
    k := Reach(j, Hears(ClosedForSubscription(x.id, message)));
    var v1 := v.(open := map[], wire := v.wire.(down := []));
    k := Write(k, v1, []);
    assert x in [x] && FirstWith([], x.id) == None;
    assert x.id in Departed([x], []);
    k := Wake(k, v1.(desired := [], wake := true));
    k := EmptyPass(k, v1.(desired := [], wake := false, pc := Start));
  }

  lemma RelayServes(j: Joint, v: View, x: Subscription) returns (k: Joint)
    requires Reachable(j) && Shows(j, v) && v.wire == F.Wire([Close(x.id), Req(x.id, x.filter)], [], map[])
    requires j.client.retries == map[]
    ensures Reachable(k) && k.client.retries == map[]
    ensures Shows(k, v.(wire := F.Wire([], [F.Eose(x.id)], map[x.id := F.Served(x.filter, false)])))
  {
    k := Reach(j, Relays(F.HearsClose));
    k := Reach(k, Relays(F.Accepts));
    k := Reach(k, Relays(F.SendsEose(x.id)));
  }

  /**
   The other half: for every subscription there is a run, within the caller contract, that ends at rest on a
   quiet socket with the relay running it although nobody wants it and the client does not have it open.
   */
  lemma OrphanHappens(x: Subscription, message: string) returns (j: Joint)
    ensures Reachable(j) && AtRest(j.client) && Quiet(j.wire)
    ensures x.id in j.wire.relay && x.id !in j.client.open && Wanted(j.client) == []
  {
    var up, served := [Close(x.id), Req(x.id, x.filter)], map[x.id := F.Served(x.filter, false)];
    j := StaleClosedHappens(x, message);
    var stale := View([x], Idle, false, map[x.id := x.filter], F.Wire(up, [F.Closed(x.id, message)], map[]));
    j := ForgottenAndDropped(j, stale, x, message);
    j := RelayServes(j, View([], Idle, false, map[], F.Wire(up, [], map[])), x);
    j := Reach(j, Hears(EoseForSubscription(x.id)));
    var quiet := F.Wire([], [], served);
    j := Wake(j, View([], Idle, true, map[], quiet));
    j := EmptyPass(j, View([], Start, false, map[], quiet));
  }
}
