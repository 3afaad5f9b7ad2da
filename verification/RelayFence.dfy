/**
 The client against the relay at the other end of an ordered socket. The client forgets a
 subscription when it hears CLOSED, but that CLOSED may answer an earlier generation of the
 id than the one the relay is running by then. The EOSE that must follow is the fence that
 keeps such an id from being held back for good.
 */
module RelayFence {
  import opened Options
  import opened RelayClosed
  import opened RelaySession
  import P = RelayProtocol
  import C = RelayCoverage

  // ---- The wire and the relay ----

  datatype Reply = Event(id: Id, event: P.Event) | Closed(id: Id, message: string) | Eose(id: Id)

  /** A subscription the relay runs, and whether its stored events are still on their way. */
  datatype Served = Served(filter: Filter, owed: bool)

  datatype Wire = Wire(up: seq<Frame>, down: seq<Reply>, relay: map<Id, Served>)

  const NEW := Wire([], [], map[])

  /** NIP-01: a REQ replaces by id and is answered by EOSE or CLOSED; the relay may CLOSE at any time. */
  datatype RelayStep =
    | Accepts
    | Refuses(message: string)
    | HearsClose
    | SendsEvent(id: Id, event: P.Event)
    | SendsEose(id: Id)
    | Drops(id: Id, message: string)

  predicate RelayMay(w: Wire, r: RelayStep) {
    match r
    case Accepts => w.up != [] && w.up[0].Req?
    case Refuses(_) => w.up != [] && w.up[0].Req?
    case HearsClose => w.up != [] && w.up[0].Close?
    case SendsEvent(id, _) => id in w.relay
    case SendsEose(id) => id in w.relay && w.relay[id].owed
    case Drops(id, _) => id in w.relay
  }

  function RelayNext(w: Wire, r: RelayStep): Wire
    requires RelayMay(w, r)
  {
    match r
    case Accepts => w.(up := w.up[1..], relay := w.relay[w.up[0].id := Served(w.up[0].filter, true)])
    case Refuses(message) =>
      Wire(w.up[1..], w.down + [Closed(w.up[0].id, message)], w.relay - {w.up[0].id})
    case HearsClose => w.(up := w.up[1..], relay := w.relay - {w.up[0].id})
    case SendsEvent(id, event) => w.(down := w.down + [Event(id, event)])
    case SendsEose(id) => w.(down := w.down + [Eose(id)], relay := w.relay[id := Served(w.relay[id].filter, false)])
    case Drops(id, message) => w.(down := w.down + [Closed(id, message)], relay := w.relay - {id})
  }

  function Sent(w: Wire, frame: Frame): Wire { w.(up := w.up + [frame]) }

  function Taken(w: Wire): Wire
    requires w.down != []
  {
    w.(down := w.down[1..])
  }

  // ---- What is in flight about one id ----

  /** The last frame on its way to the relay about `id`. */
  function LastUp(up: seq<Frame>, id: Id): Option<Frame> {
    if up == [] then None
    else if up[|up| - 1].id == id then Some(up[|up| - 1])
    else LastUp(up[..|up| - 1], id)
  }

  lemma LastUpSnoc(up: seq<Frame>, frame: Frame, id: Id)
    ensures LastUp(up + [frame], id) == if frame.id == id then Some(frame) else LastUp(up, id)
  {
    assert (up + [frame])[..|up|] == up;
  }

  lemma {:induction false} LastUpHead(up: seq<Frame>, id: Id)
    requires up != []
    ensures LastUp(up, id)
            == if LastUp(up[1..], id).Some? then LastUp(up[1..], id)
               else if up[0].id == id then Some(up[0]) else None
  {
    var init := up[..|up| - 1];
    if init != [] {
      LastUpHead(init, id);
      assert init[1..] == up[1..][..|up| - 2];
    }
  }

  /** What the relay will run under `id` once it has read everything sent, if it agrees. */
  function Will(w: Wire, id: Id): Option<Filter> {
    match LastUp(w.up, id)
    case Some(Req(_, filter)) => Some(filter)
    case Some(Close(_)) => None
    case None => if id in w.relay then Some(w.relay[id].filter) else None
  }

  predicate EoseIn(down: seq<Reply>, id: Id) { Eose(id) in down }

  predicate ClosedIn(down: seq<Reply>, id: Id) { exists k :: 0 <= k < |down| && down[k].Closed? && down[k].id == id }

  /** If the relay is to run `id`, an EOSE for that run is still to come after position `k`. */
  predicate Fenced(w: Wire, id: Id, k: nat)
    requires k <= |w.down|
  {
    || Will(w, id).None?
    || LastUp(w.up, id).Some?
    || (id in w.relay && w.relay[id].owed)
    || EoseIn(w.down[k..], id)
  }

  // ---- What the wire keeps by itself ----

  /** The order of frames: whatever runs after a CLOSED is announced by an EOSE behind it. */
  ghost predicate ClosedFenced(w: Wire) {
    forall k :: 0 <= k < |w.down| && w.down[k].Closed? ==> Fenced(w, w.down[k].id, k + 1)
  }

  lemma RelayKeepsFence(w: Wire, r: RelayStep, id: Id, k: nat)
    requires RelayMay(w, r) && k <= |w.down| && Fenced(w, id, k)
    ensures k <= |RelayNext(w, r).down| && Fenced(RelayNext(w, r), id, k)
  {
    if w.up != [] { LastUpHead(w.up, id); }
    var v := RelayNext(w, r);
    if w.down <= v.down && EoseIn(w.down[k..], id) {
      assert w.down[k..] <= v.down[k..];
    }
    if r == SendsEose(id) {
      assert v.down[k..] == w.down[k..] + [Eose(id)];
    }
  }

  lemma RelayKeepsClosedFenced(w: Wire, r: RelayStep)
    requires RelayMay(w, r) && ClosedFenced(w)
    ensures ClosedFenced(RelayNext(w, r))
  {
    var v := RelayNext(w, r);
    forall k | 0 <= k < |v.down| && v.down[k].Closed?
      ensures Fenced(v, v.down[k].id, k + 1)
    {
      if k < |w.down| {
        RelayKeepsFence(w, r, v.down[k].id, k + 1);
      }
    }
  }

  lemma RelayKeepsWill(w: Wire, r: RelayStep, id: Id)
    requires RelayMay(w, r)
    ensures Will(RelayNext(w, r), id) == Will(w, id) || ClosedIn(RelayNext(w, r).down, id)
    ensures ClosedIn(w.down, id) ==> ClosedIn(RelayNext(w, r).down, id)
  {
    if w.up != [] { LastUpHead(w.up, id); }
    var v := RelayNext(w, r);
    if ClosedIn(w.down, id) {
      var k :| 0 <= k < |w.down| && w.down[k].Closed? && w.down[k].id == id;
      assert v.down[k] == w.down[k];
    }
    assert |v.down| > |w.down| ==> v.down[|w.down|] == v.down[|v.down| - 1];
  }

  lemma SendingKeepsClosedFenced(w: Wire, frame: Frame)
    requires ClosedFenced(w)
    ensures ClosedFenced(Sent(w, frame))
  {
    forall k | 0 <= k < |w.down| && w.down[k].Closed?
      ensures Fenced(Sent(w, frame), w.down[k].id, k + 1)
    {
      LastUpSnoc(w.up, frame, w.down[k].id);
    }
  }

  lemma TakingKeepsClosedFenced(w: Wire)
    requires ClosedFenced(w) && w.down != []
    ensures ClosedFenced(Taken(w))
  {
    forall k | 0 <= k < |w.down| - 1 && w.down[1..][k].Closed?
      ensures Fenced(Taken(w), w.down[1..][k].id, k + 1)
    {
      assert w.down[1..][k + 1..] == w.down[k + 2..];
    }
  }

  lemma TakingKeepsFence(w: Wire, id: Id)
    requires w.down != [] && Fenced(w, id, 0) && w.down[0] != Eose(id)
    ensures Fenced(Taken(w), id, 0)
  {
    assert w.down == [w.down[0]] + w.down[1..] && w.down[0..] == w.down && w.down[1..][0..] == w.down[1..];
  }

  lemma TakingKeepsClosedIn(down: seq<Reply>, id: Id)
    requires down != [] && ClosedIn(down, id) && !(down[0].Closed? && down[0].id == id)
    ensures ClosedIn(down[1..], id)
  {
    var k :| 0 <= k < |down| && down[k].Closed? && down[k].id == id;
    assert down[1..][k - 1] == down[k];
  }

  // ---- What the client knows about the relay ----

  /** What the client thinks is open will run with that filter, or the news that it does not is on its way. */
  ghost predicate OpenServed(w: Wire, open: map<Id, Filter>) {
    forall id :: id in open ==> Will(w, id) == Some(open[id]) || ClosedIn(w.down, id)
  }

  /** What the client holds back does not run, or the EOSE that will free it is still to come. */
  ghost predicate HeldFenced(w: Wire, open: map<Id, Filter>, held: set<Id>) {
    forall id :: id in held && id !in open ==> Fenced(w, id, 0)
  }

  ghost predicate Informed(w: Wire, open: map<Id, Filter>, held: set<Id>) {
    ClosedFenced(w) && OpenServed(w, open) && HeldFenced(w, open, held)
  }

  lemma RelayKeepsInformed(w: Wire, r: RelayStep, open: map<Id, Filter>, held: set<Id>)
    requires RelayMay(w, r) && Informed(w, open, held)
    ensures Informed(RelayNext(w, r), open, held)
  {
    RelayKeepsClosedFenced(w, r);
    forall id | id in open
      ensures Will(RelayNext(w, r), id) == Some(open[id]) || ClosedIn(RelayNext(w, r).down, id)
    {
      RelayKeepsWill(w, r, id);
    }
    forall id | id in held && id !in open
      ensures Fenced(RelayNext(w, r), id, 0)
    {
      RelayKeepsFence(w, r, id, 0);
    }
  }

  lemma RequestKeepsInformed(w: Wire, sub: Subscription, open: map<Id, Filter>, held: set<Id>)
    requires Informed(w, open, held)
    ensures Informed(Sent(w, Req(sub.id, sub.filter)), open[sub.id := sub.filter], held)
  {
    SendingKeepsClosedFenced(w, Req(sub.id, sub.filter));
    forall id | id in open.Keys + held + {sub.id}
      ensures LastUp(w.up + [Req(sub.id, sub.filter)], id)
              == if id == sub.id then Some(Req(sub.id, sub.filter)) else LastUp(w.up, id)
    {
      LastUpSnoc(w.up, Req(sub.id, sub.filter), id);
    }
  }

  lemma CloseKeepsInformed(w: Wire, gone: Id, open: map<Id, Filter>, held: set<Id>)
    requires Informed(w, open, held)
    ensures Informed(Sent(w, Close(gone)), open - {gone}, held)
  {
    SendingKeepsClosedFenced(w, Close(gone));
    forall id | id in open.Keys + held + {gone}
      ensures LastUp(w.up + [Close(gone)], id) == if id == gone then Some(Close(gone)) else LastUp(w.up, id)
    {
      LastUpSnoc(w.up, Close(gone), id);
    }
  }

  /** An event, or a CLOSED the client ignores because the id is not open. */
  lemma PassingOverKeepsInformed(w: Wire, open: map<Id, Filter>, held: set<Id>)
    requires Informed(w, open, held) && w.down != []
    requires w.down[0].Event? || (w.down[0].Closed? && w.down[0].id !in open)
    ensures Informed(Taken(w), open, held)
  {
    TakingKeepsClosedFenced(w);
    forall id | id in open && ClosedIn(w.down, id) ensures ClosedIn(Taken(w).down, id) {
      TakingKeepsClosedIn(w.down, id);
    }
    forall id | id in held && id !in open ensures Fenced(Taken(w), id, 0) {
      TakingKeepsFence(w, id);
    }
  }

  /** Hearing CLOSED: the id is forgotten and may be held back, because its fence is behind the CLOSED. */
  lemma HearingClosedKeepsInformed(w: Wire, open: map<Id, Filter>, held: set<Id>)
    requires Informed(w, open, held) && w.down != [] && w.down[0].Closed?
    ensures Informed(Taken(w), open - {w.down[0].id}, held + {w.down[0].id})
  {
    TakingKeepsClosedFenced(w);
    var gone := w.down[0].id;
    forall id | id in open && id != gone && ClosedIn(w.down, id) ensures ClosedIn(Taken(w).down, id) {
      TakingKeepsClosedIn(w.down, id);
    }
    forall id | id in held + {gone} && id !in open - {gone} ensures Fenced(Taken(w), id, 0) {
      if id == gone {
        assert Fenced(w, gone, 1);
        assert w.down[1..][0..] == w.down[1..];
      } else {
        TakingKeepsFence(w, id);
      }
    }
  }

  /** Hearing EOSE frees the id. */
  lemma HearingEoseKeepsInformed(w: Wire, open: map<Id, Filter>, held: set<Id>)
    requires Informed(w, open, held) && w.down != [] && w.down[0].Eose?
    ensures Informed(Taken(w), open, held - {w.down[0].id})
  {
    TakingKeepsClosedFenced(w);
    forall id | id in open && ClosedIn(w.down, id) ensures ClosedIn(Taken(w).down, id) {
      TakingKeepsClosedIn(w.down, id);
    }
    forall id | id in held - {w.down[0].id} && id !in open ensures Fenced(Taken(w), id, 0) {
      TakingKeepsFence(w, id);
    }
  }
}
