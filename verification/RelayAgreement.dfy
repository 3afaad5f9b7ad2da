/** Client and relay together, over every interleaving of both: no blackhole, and agreement once the socket is quiet. */
module RelayAgreement {
  import opened Options
  import opened RelayClosed
  import opened RelaySession
  import opened RelayProtocol
  import C = RelayCoverage
  import F = RelayFence

  datatype Joint = Joint(client: State, wire: F.Wire)

  datatype Step = Local(a: Action) | Hears(m: FrameStep) | Relays(r: F.RelayStep)

  /** The client's steps that take nothing off the socket. */
  predicate IsLocal(a: Action) { a.ByFrame? ==> a.m.EventPushed? || a.m.Settle? || a.m.LoopPosts? }

  /** Which branch a reply leads to; the branch's own guard is `FrameMay`. */
  predicate Answers(s: State, reply: F.Reply, m: FrameStep) {
    match reply
    case Event(id, event) =>
      || (m.Ignored? && (id !in s.open || id in s.requests))
      || m == EventForRequest(id, event)
      || m == EventForArchive(id)
    case Closed(id, message) =>
      || (m.Ignored? && id !in s.open)
      || m == ClosedForRequest(id, message)
      || m == ClosedForSubscription(id, message)
    case Eose(id) => m == EoseForRequest(id) || m == EoseForSubscription(id)
  }

  /** What a client step puts on the wire; a new socket starts with an empty one. */
  ghost function WireAfter(w: F.Wire, s: State, a: Action): F.Wire
    requires Enabled(s, a)
  {
    if !a.ByPass? then w
    else match a.p
      case Connect => F.NEW
      case RequestSent => F.Sent(w, Req(s.pc.rest[0].id, s.pc.rest[0].filter))
      case CloseSent(id) => F.Sent(w, Close(id))
      case _ => w
  }

  ghost predicate StepMay(j: Joint, x: Step) {
    match x
    case Local(a) => IsLocal(a) && Enabled(j.client, a)
    case Hears(m) => j.wire.down != [] && FrameMay(j.client, m) && Answers(j.client, j.wire.down[0], m)
    case Relays(r) => F.RelayMay(j.wire, r)
  }

  ghost function StepNext(j: Joint, x: Step): Joint
    requires StepMay(j, x)
  {
    match x
    case Local(a) => Joint(Next(j.client, a), WireAfter(j.wire, j.client, a))
    case Hears(m) => Joint(FrameNext(j.client, m), F.Taken(j.wire))
    case Relays(r) => j.(wire := F.RelayNext(j.wire, r))
  }

  ghost predicate JointRun(states: seq<Joint>, steps: seq<Step>) {
    && |states| == |steps| + 1
    && states[0] == Joint(Init, F.NEW)
    && forall i :: 0 <= i < |steps| ==> StepMay(states[i], steps[i]) && states[i + 1] == StepNext(states[i], steps[i])
  }

  // ---- What every joint run keeps ----

  /** A finite request never has retry state. */
  ghost predicate RequestsApart(s: State) { forall id :: id in s.retries ==> id !in s.requests }

  ghost predicate Informed(j: Joint) { F.Informed(j.wire, j.client.open, j.client.retries.Keys) }

  ghost predicate Inv(j: Joint) { C.Inv(j.client) && RequestsApart(j.client) && Informed(j) }

  lemma FetchKeepsApart(s: State, f: FetchStep)
    requires C.Names(s) && RequestsApart(s) && FetchMay(s, f)
    ensures RequestsApart(FetchNext(s, f))
  {
  }

  lemma PassKeepsApart(s: State, p: PassStep)
    requires RequestsApart(s) && PassMay(s, p)
    ensures RequestsApart(PassNext(s, p))
  {
  }

  lemma FrameKeepsApart(s: State, m: FrameStep)
    requires RequestsApart(s) && FrameMay(s, m)
    ensures RequestsApart(FrameNext(s, m))
  {
  }

  lemma WriterKeepsApart(s: State, w: WriterStep)
    requires RequestsApart(s) && WriterMay(s, w)
    ensures RequestsApart(WriterNext(s, w))
  {
  }

  lemma KeepsApart(s: State, a: Action)
    requires C.Names(s) && RequestsApart(s) && Enabled(s, a)
    ensures RequestsApart(Next(s, a))
  {
    match a
    case Tick(_) =>
    case ByWriter(w) => WriterKeepsApart(s, w);
    case ByFetch(f) => FetchKeepsApart(s, f);
    case ByPass(p) => PassKeepsApart(s, p);
    case ByFrame(m) => FrameKeepsApart(s, m);
  }

  lemma FewerHeld(w: F.Wire, open: map<Id, Filter>, held: set<Id>, fewer: set<Id>)
    requires F.Informed(w, open, held) && fewer <= held
    ensures F.Informed(w, open, fewer)
  {
  }

  lemma PassKeepsInformed(j: Joint, p: PassStep)
    requires Informed(j) && PassMay(j.client, p)
    ensures Informed(StepNext(j, Local(ByPass(p))))
  {
    var s, w := j.client, j.wire;
    var t := PassNext(s, p);
    match p
    case RequestSent => F.RequestKeepsInformed(w, s.pc.rest[0], s.open, s.retries.Keys);
    case CloseSent(id) => F.CloseKeepsInformed(w, id, s.open, s.retries.Keys);
    case Snapshot => FewerHeld(w, s.open, s.retries.Keys, t.retries.Keys);
    case TimerFires => assert t.retries.Keys == s.retries.Keys;
    case _ =>
  }

  lemma FetchLeavesSocket(s: State, f: FetchStep)
    requires FetchMay(s, f)
    ensures FetchNext(s, f).open == s.open && FetchNext(s, f).retries == s.retries
  {
  }

  lemma WriterLeavesSocket(s: State, w: WriterStep)
    requires WriterMay(s, w)
    ensures WriterNext(s, w).open == s.open && WriterNext(s, w).retries == s.retries
  {
  }

  lemma LocalFrameLeavesSocket(s: State, m: FrameStep)
    requires FrameMay(s, m) && IsLocal(ByFrame(m))
    ensures FrameNext(s, m).open == s.open && FrameNext(s, m).retries == s.retries
  {
  }

  lemma OtherLocalLeavesSocket(s: State, a: Action)
    requires Enabled(s, a) && IsLocal(a) && !a.ByPass?
    ensures Next(s, a).open == s.open && Next(s, a).retries == s.retries
  {
    match a
    case Tick(_) =>
    case ByWriter(w) => WriterLeavesSocket(s, w);
    case ByFetch(f) => FetchLeavesSocket(s, f);
    case ByFrame(m) => LocalFrameLeavesSocket(s, m);
  }

  lemma HearingKeepsInformed(j: Joint, m: FrameStep)
    requires Informed(j) && RequestsApart(j.client) && StepMay(j, Hears(m))
    ensures Informed(StepNext(j, Hears(m)))
  {
    var s, w := j.client, j.wire;
    var t := FrameNext(s, m);
    match w.down[0]
    case Event(id, _) =>
      F.PassingOverKeepsInformed(w, s.open, s.retries.Keys);
      FewerHeld(F.Taken(w), s.open, s.retries.Keys, t.retries.Keys);
    case Closed(id, _) =>
      if m.Ignored? {
        F.PassingOverKeepsInformed(w, s.open, s.retries.Keys);
      } else {
        F.HearingClosedKeepsInformed(w, s.open, s.retries.Keys);
        FewerHeld(F.Taken(w), t.open, s.retries.Keys + {id}, t.retries.Keys);
      }
    case Eose(id) =>
      F.HearingEoseKeepsInformed(w, s.open, s.retries.Keys);
      FewerHeld(F.Taken(w), s.open, s.retries.Keys - {id}, t.retries.Keys);
  }

  /** A joint step is a client step or a relay step. */
  lemma ClientKept(j: Joint, x: Step)
    requires C.Inv(j.client) && RequestsApart(j.client) && StepMay(j, x)
    ensures C.Inv(StepNext(j, x).client) && RequestsApart(StepNext(j, x).client)
  {
    match x
    case Local(a) =>
      C.InvKept(j.client, a);
      KeepsApart(j.client, a);
    case Hears(m) =>
      C.InvKept(j.client, ByFrame(m));
      FrameKeepsApart(j.client, m);
    case Relays(_) =>
  }

  lemma InformedKept(j: Joint, x: Step)
    requires Inv(j) && StepMay(j, x)
    ensures Informed(StepNext(j, x))
  {
    match x
    case Local(a) =>
      if a.ByPass? {
        PassKeepsInformed(j, a.p);
      } else {
        OtherLocalLeavesSocket(j.client, a);
      }
    case Hears(m) => HearingKeepsInformed(j, m);
    case Relays(r) => F.RelayKeepsInformed(j.wire, r, j.client.open, j.client.retries.Keys);
  }

  lemma {:induction false} EveryJointRunKeepsInv(states: seq<Joint>, steps: seq<Step>, i: nat)
    requires JointRun(states, steps) && i < |states|
    ensures Inv(states[i])
  {
    if i > 0 {
      EveryJointRunKeepsInv(states, steps, i - 1);
      ClientKept(states[i - 1], steps[i - 1]);
      InformedKept(states[i - 1], steps[i - 1]);
    }
  }

  // ---- No blackhole ----

  /** Nothing about `id` is on its way in either direction, and no EOSE for it is owed. */
  predicate Silent(w: F.Wire, id: Id) {
    && F.LastUp(w.up, id).None?
    && (id in w.relay ==> !w.relay[id].owed)
    && forall k :: 0 <= k < |w.down| ==> w.down[k].id != id
  }

  /**
   A wanted subscription the relay is running, with nothing left in flight about it, is never held back:
   it is open with its exact filter on both sides, or the loop is on its way to it.
   */
  lemma NoBlackhole(states: seq<Joint>, steps: seq<Step>, i: nat, x: Subscription)
    requires JointRun(states, steps) && i < |states|
    requires var s := states[i].client; x in Wanted(s) && !s.pc.Down? && !s.pc.Start? && !Promised(s)
    requires x.id in states[i].wire.relay && Silent(states[i].wire, x.id)
    ensures var s, w := states[i].client, states[i].wire;
            || (s.pc.Closing? && x in s.pc.snapshot)
            || (s.pc.Sending? && x in s.pc.rest)
            || (s.pc.Settling? && x.id == s.pc.id)
            || (x.id in s.open && s.open[x.id] == x.filter && w.relay[x.id].filter == x.filter)
  {
    EveryJointRunKeepsInv(states, steps, i);
    var s, w := states[i].client, states[i].wire;
    assert C.Covered(s.pc, Promised(s), s.open, s.retries, x);
    assert w.down[0..] == w.down;
  }

  ghost predicate AtRest(s: State) { s.pc.Idle? && !Promised(s) }

  predicate Quiet(w: F.Wire) { w.up == [] && w.down == [] && forall id :: id in w.relay ==> !w.relay[id].owed }

  lemma AtRestCovered(s: State, id: Id)
    requires C.Inv(s) && AtRest(s)
    ensures id in s.open ==> exists x :: x in Wanted(s) && x.id == id && s.open[id] == x.filter
  {
    if id in s.open {
      assert C.OnRecord(Wanted(s), s.removed, id);
      var x :| x in Wanted(s) && x.id == id;
      assert C.Covered(s.pc, Promised(s), s.open, s.retries, x);
    }
  }

  /**
   Once the loop is at rest and the socket quiet, both sides agree on everything wanted: the relay runs a
   wanted subscription exactly when the client has it open, with the wanted filter; the rest is held by a retry;
   and the client has nothing open that the relay does not run.
   */
  lemma QuietMeansAgreed(states: seq<Joint>, steps: seq<Step>, i: nat)
    requires JointRun(states, steps) && i < |states|
    requires AtRest(states[i].client) && Quiet(states[i].wire)
    ensures var s, w := states[i].client, states[i].wire;
            && (forall x :: x in Wanted(s) ==>
                  if x.id in w.relay then w.relay[x.id].filter == x.filter && C.OpenAs(s.open, x)
                  else x.id !in s.open && x.id in s.retries && s.retries[x.id].Held())
            && (forall id :: id in s.open ==> id in w.relay && C.Named(Wanted(s), id))
  {
    EveryJointRunKeepsInv(states, steps, i);
    var s, w := states[i].client, states[i].wire;
    forall x | x in Wanted(s)
      ensures if x.id in w.relay then w.relay[x.id].filter == x.filter && C.OpenAs(s.open, x)
              else x.id !in s.open && x.id in s.retries && s.retries[x.id].Held()
    {
      assert C.Covered(s.pc, Promised(s), s.open, s.retries, x);
    }
    forall id | id in s.open
      ensures id in w.relay && C.Named(Wanted(s), id)
    {
      AtRestCovered(s, id);
    }
  }
}
