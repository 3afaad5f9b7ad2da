/**
 The declarative core of the relay session: the desired set with its record of
 departures, and the pass that brings a socket's open subscriptions in line with it.
 */
module RelaySession {
  import opened Options
  import opened RelayClosed

  datatype Id = Id(name: string)
  datatype Filter = Filter(json: string)

  datatype Subscription = Subscription(id: Id, filter: Filter)

  /** NIP-01 client frames a pass may send. */
  datatype Frame = Req(id: Id, filter: Filter) | Close(id: Id)

  function Ids(subs: seq<Subscription>): set<Id> { set s | s in subs :: s.id }

  /** Caller contract: within one set of subscriptions an id names one filter. */
  ghost predicate OneFilterPerId(subs: seq<Subscription>) {
    forall s, t :: s in subs && t in subs && s.id == t.id ==> s == t
  }

  // ---- Departures ----

  function FirstWith(subs: seq<Subscription>, id: Id): (r: Option<Subscription>)
    ensures r.Some? ==> r.value in subs && r.value.id == id
    ensures r.None? <==> id !in Ids(subs)
  {
    if subs == [] then None
    else if subs[0].id == id then Some(subs[0])
    else FirstWith(subs[1..], id)
  }

  /** Ids whose exact subscription is gone when `next` replaces `previous`. */
  function Departed(previous: seq<Subscription>, next: seq<Subscription>): set<Id> {
    set p | p in previous && FirstWith(next, p.id) != Some(p) :: p.id
  }

  /** Ids of `previous`, in order, that `next` reuses for another filter. */
  function Violations(previous: seq<Subscription>, next: seq<Subscription>): seq<Id> {
    if previous == [] then []
    else
      var p := previous[0];
      var survivor := FirstWith(next, p.id);
      (if survivor.Some? && survivor != Some(p) then [p.id] else []) + Violations(previous[1..], next)
  }

  lemma {:induction false} ViolationsSnoc(previous: seq<Subscription>, p: Subscription, next: seq<Subscription>)
    ensures var survivor := FirstWith(next, p.id);
            Violations(previous + [p], next)
            == Violations(previous, next) + (if survivor.Some? && survivor != Some(p) then [p.id] else [])
  {
    if previous == [] {
      assert previous + [p] == [p];
      assert Violations([p][1..], next) == [];
    } else {
      assert (previous + [p])[1..] == previous[1..] + [p];
      ViolationsSnoc(previous[1..], p, next);
    }
  }

  /** The set that leaves is recorded exactly: an id is unrecorded only if its subscription survives. */
  lemma DepartedExactly(previous: seq<Subscription>, next: seq<Subscription>, id: Id)
    requires OneFilterPerId(previous) && OneFilterPerId(next)
    ensures id in Departed(previous, next) <==> exists p :: p in previous && p.id == id && p !in next
  {
    if id in Departed(previous, next) {
      var p :| p in previous && p.id == id && FirstWith(next, id) != Some(p);
      assert p in next ==> p.id in Ids(next);
    }
    forall p | p in previous && p.id == id && p !in next
      ensures id in Departed(previous, next)
    {
      assert FirstWith(next, p.id) != Some(p);
    }
  }

  /** A reused id is reported exactly: it was wanted with a filter, and is wanted again with another. */
  lemma {:induction false} ViolationsExactly(previous: seq<Subscription>, next: seq<Subscription>, id: Id)
    requires OneFilterPerId(next)
    ensures id in Violations(previous, next)
            <==> exists p, q :: p in previous && q in next && p.id == id && q.id == id && p.filter != q.filter
  {
    if previous != [] {
      ViolationsExactly(previous[1..], next, id);
      var p := previous[0];
      var survivor := FirstWith(next, p.id);
      assert previous == [p] + previous[1..];
      forall q | q in next && q.id == p.id
        ensures survivor == Some(q)
      {
        assert q.id in Ids(next);
      }
    }
  }

  lemma DepartedSnoc(previous: seq<Subscription>, p: Subscription, next: seq<Subscription>)
    ensures Departed(previous + [p], next)
            == Departed(previous, next) + (if FirstWith(next, p.id) == Some(p) then {} else {p.id})
  {
  }

  /** How far the comparison with the set before has come. */
  ghost predicate ReplacedSoFar(previous: seq<Subscription>, i: nat, next: seq<Subscription>, already: set<Id>,
                                removed: set<Id>, violations: seq<Id>)
    requires i <= |previous|
  {
    removed == already + Departed(previous[..i], next) && violations == Violations(previous[..i], next)
  }

  lemma ReplacedOneMore(previous: seq<Subscription>, i: nat, next: seq<Subscription>, already: set<Id>,
                        removed: set<Id>, violations: seq<Id>)
    requires i < |previous| && ReplacedSoFar(previous, i, next, already, removed, violations)
    ensures var p := previous[i];
            var survivor := FirstWith(next, p.id);
            ReplacedSoFar(previous, i + 1, next, already,
                          if survivor == Some(p) then removed else removed + {p.id},
                          violations + (if survivor.Some? && survivor != Some(p) then [p.id] else []))
  {
    assert previous[..i + 1] == previous[..i] + [previous[i]];
    ViolationsSnoc(previous[..i], previous[i], next);
    DepartedSnoc(previous[..i], previous[i], next);
  }

  class SessionState {
    var desired: seq<Subscription>
    var transient: seq<Subscription>
    var removed: set<Id>

    constructor ()
      ensures desired == [] && transient == [] && removed == {}
    {
      desired, transient, removed := [], [], {};
    }

    method ReplaceDesired(subscriptions: seq<Subscription>) returns (violations: seq<Id>)
      modifies this
      ensures desired == subscriptions && transient == old(transient)
      ensures removed == old(removed) + Departed(old(desired), subscriptions)
      ensures violations == Violations(old(desired), subscriptions)
    {
      var previous := desired;
      ghost var already := removed;
      desired := subscriptions;
      violations := [];
      for i := 0 to |previous|
        invariant desired == subscriptions && transient == old(transient)
        invariant ReplacedSoFar(previous, i, subscriptions, already, removed, violations)
      {
        var p := previous[i];
        ReplacedOneMore(previous, i, subscriptions, already, removed, violations);
        var survivor := FirstWith(desired, p.id);
        if survivor != Some(p) {
          if survivor.Some? {
            violations := violations + [p.id];
          }
          removed := removed + {p.id};
        }
      }
      assert previous[..|previous|] == previous;
    }

    /** `finish_request` and the settling arms of the socket loop. */
    method Retire(id: Id)
      modifies this
      ensures desired == old(desired)
      ensures transient == Without(old(transient), id)
      ensures removed == old(removed) + {id}
    {
      transient := Without(transient, id);
      removed := removed + {id};
    }

    /** Snapshot and drain in one acquisition of the lock. */
    method Drain() returns (snapshot: seq<Subscription>, gone: set<Id>)
      modifies this
      ensures desired == old(desired) && transient == old(transient)
      ensures snapshot == desired + transient && gone == old(removed) && removed == {}
    {
      snapshot, gone := desired + transient, removed;
      removed := {};
    }
  }

  function Without(subs: seq<Subscription>, id: Id): (r: seq<Subscription>)
    ensures forall s :: s in r <==> s in subs && s.id != id
  {
    if subs == [] then []
    else (if subs[0].id == id then [] else [subs[0]]) + Without(subs[1..], id)
  }

  // ---- One reconcile pass ----

  datatype Decision = AlreadyOpen | HeldBack | Send

  predicate BlockedId(retries: map<Id, ClosedRetry>, id: Id, now: nat) {
    id in retries && retries[id].Blocked(now)
  }

  /** What the pass does about one wanted subscription. */
  function Decide(open: map<Id, Filter>, retries: map<Id, ClosedRetry>, sub: Subscription, now: nat): Decision {
    if sub.id in open && open[sub.id] == sub.filter then AlreadyOpen
    else if BlockedId(retries, sub.id, now) then HeldBack
    else Send
  }

  /** The REQ frames of a pass over `subs`, in order. */
  function Requests(open: map<Id, Filter>, retries: map<Id, ClosedRetry>, subs: seq<Subscription>, now: nat): seq<Frame>
    decreases subs
  {
    if subs == [] then []
    else if Decide(open, retries, subs[0], now) == Send then
      [Req(subs[0].id, subs[0].filter)] + Requests(open[subs[0].id := subs[0].filter], retries, subs[1..], now)
    else Requests(open, retries, subs[1..], now)
  }

  /** Open subscriptions nobody wants any more. */
  function Stale(open: map<Id, Filter>, subs: seq<Subscription>): set<Id> { open.Keys - Ids(subs) }

  function Closes(ids: seq<Id>): seq<Frame> { seq(|ids|, i requires 0 <= i < |ids| => Close(ids[i])) }

  // ---- The relay's side ----

  /** NIP-01: REQ opens or replaces by id, CLOSE ends. */
  function Serve(relay: map<Id, Filter>, frame: Frame): map<Id, Filter> {
    match frame
    case Req(id, filter) => relay[id := filter]
    case Close(id) => relay - {id}
  }

  function Replay(relay: map<Id, Filter>, frames: seq<Frame>): map<Id, Filter> {
    if frames == [] then relay else Serve(Replay(relay, frames[..|frames| - 1]), frames[|frames| - 1])
  }

  lemma ReplaySnoc(relay: map<Id, Filter>, frames: seq<Frame>, f: Frame)
    ensures Replay(relay, frames + [f]) == Serve(Replay(relay, frames), f)
  {
    assert (frames + [f])[..|frames|] == frames;
  }

  /** An open id is never blocked. */
  ghost predicate OpenUnblocked(open: map<Id, Filter>, retries: map<Id, ClosedRetry>, now: nat) {
    forall id :: id in open ==> !BlockedId(retries, id, now)
  }

  /** The simple set update a pass must amount to: the wanted set minus the blocked ids. */
  ghost predicate InLine(open: map<Id, Filter>, subs: seq<Subscription>, retries: map<Id, ClosedRetry>, now: nat) {
    && (forall id :: id in open <==> id in Ids(subs) && !BlockedId(retries, id, now))
    && (forall s :: s in subs && s.id in open ==> open[s.id] == s.filter)
  }

  /** `open` agrees with the part of the wanted set the pass has dealt with. */
  ghost predicate InLineSoFar(open: map<Id, Filter>, done: seq<Subscription>, all: seq<Subscription>,
                              retries: map<Id, ClosedRetry>, now: nat) {
    && open.Keys <= Ids(all)
    && OpenUnblocked(open, retries, now)
    && (forall s :: s in done ==> if BlockedId(retries, s.id, now) then s.id !in open
                                  else s.id in open && open[s.id] == s.filter)
  }

  lemma SendOneStaysInLine(open: map<Id, Filter>, done: seq<Subscription>, sub: Subscription, all: seq<Subscription>,
                           retries: map<Id, ClosedRetry>, now: nat)
    requires InLineSoFar(open, done, all, retries, now)
    requires OneFilterPerId(all) && sub in all && forall s :: s in done ==> s in all
    ensures InLineSoFar(if Decide(open, retries, sub, now) == Send then open[sub.id := sub.filter] else open,
                        done + [sub], all, retries, now)
  {
    assert sub.id in Ids(all);
  }

  /** A pass that finds the socket in line sends nothing. */
  lemma {:induction false} SecondPassIsSilent(open: map<Id, Filter>, subs: seq<Subscription>,
                                              retries: map<Id, ClosedRetry>, now: nat)
    requires InLine(open, subs, retries, now)
    ensures Stale(open, subs) == {} && Requests(open, retries, subs, now) == []
  {
    NothingToRequest(open, subs, subs, retries, now);
  }

  lemma {:induction false} NothingToRequest(open: map<Id, Filter>, rest: seq<Subscription>, subs: seq<Subscription>,
                                            retries: map<Id, ClosedRetry>, now: nat)
    requires InLine(open, subs, retries, now)
    requires forall s :: s in rest ==> s in subs
    ensures Requests(open, retries, rest, now) == []
  {
    if rest != [] {
      assert rest[0].id in Ids(subs);
      NothingToRequest(open, rest[1..], subs, retries, now);
    }
  }

  /** How far the CLOSE half of a pass has come: `todo` is what it has not looked at. */
  ghost predicate ClosedSoFar(before: map<Id, Filter>, open: map<Id, Filter>, closed: seq<Id>, todo: set<Id>,
                              wanted: seq<Subscription>) {
    && todo <= open.Keys
    && Replay(before, Closes(closed)) == open
    && open == before - (set id | id in closed)
    && (set id | id in closed) == Stale(before, wanted) - todo
  }

  lemma ClosedOneMore(before: map<Id, Filter>, open: map<Id, Filter>, closed: seq<Id>, todo: set<Id>,
                      wanted: seq<Subscription>, id: Id)
    requires ClosedSoFar(before, open, closed, todo, wanted) && id in todo
    ensures id in Ids(wanted) ==> ClosedSoFar(before, open, closed, todo - {id}, wanted)
    ensures id !in Ids(wanted) ==> ClosedSoFar(before, open - {id}, closed + [id], todo - {id}, wanted)
    ensures Closes(closed + [id]) == Closes(closed) + [Close(id)]
  {
    assert Closes(closed + [id]) == Closes(closed) + [Close(id)];
    ReplaySnoc(before, Closes(closed), Close(id));
    assert (set x | x in closed + [id]) == (set x | x in closed) + {id};
  }

  /** How far the REQ half has come: `rest` is still to be looked at. */
  ghost predicate RequestedSoFar(before: map<Id, Filter>, open: map<Id, Filter>, frames: seq<Frame>,
                                 done: seq<Subscription>, rest: seq<Subscription>,
                                 retries: map<Id, ClosedRetry>, now: nat) {
    && Replay(before, frames) == open
    && Requests(before, retries, done + rest, now) == frames + Requests(open, retries, rest, now)
    && OpenUnblocked(open, retries, now)
    && (OneFilterPerId(done + rest) && before.Keys <= Ids(done + rest) ==>
          InLineSoFar(open, done, done + rest, retries, now))
  }

  lemma RequestedOneMore(before: map<Id, Filter>, open: map<Id, Filter>, frames: seq<Frame>,
                         done: seq<Subscription>, rest: seq<Subscription>,
                         retries: map<Id, ClosedRetry>, now: nat)
    requires RequestedSoFar(before, open, frames, done, rest, retries, now) && rest != []
    ensures var sub := rest[0];
            if Decide(open, retries, sub, now) == Send then
              RequestedSoFar(before, open[sub.id := sub.filter], frames + [Req(sub.id, sub.filter)],
                             done + [sub], rest[1..], retries, now)
            else RequestedSoFar(before, open, frames, done + [sub], rest[1..], retries, now)
  {
    var sub := rest[0];
    assert (done + [sub]) + rest[1..] == done + rest;
    ReplaySnoc(before, frames, Req(sub.id, sub.filter));
    if OneFilterPerId(done + rest) && before.Keys <= Ids(done + rest) {
      SendOneStaysInLine(open, done, sub, done + rest, retries, now);
    }
  }

  /** One authenticated socket: what is open on it, what the relay CLOSED, what was sent. */
  class Connection {
    var open: map<Id, Filter>
    var retries: map<Id, ClosedRetry>
    var sent: seq<Frame>
    var sendsLeft: nat  // the write after these fails

    method SendRaw(frame: Frame) returns (ok: bool)
      modifies this`sent, this`sendsLeft
      ensures ok == (old(sendsLeft) > 0)
      ensures sendsLeft == if ok then old(sendsLeft) - 1 else 0
      ensures sent == if ok then old(sent) + [frame] else old(sent)
    {
      ok := sendsLeft > 0;
      if ok {
        sent, sendsLeft := sent + [frame], sendsLeft - 1;
      }
    }

    /** First half of a pass: CLOSE, in any order, what is open and no longer wanted. */
    method CloseStale(wanted: seq<Subscription>) returns (ok: bool, closed: seq<Id>)
      modifies this`open, this`sent, this`sendsLeft
      ensures sent == old(sent) + Closes(closed)
      ensures Replay(old(open), Closes(closed)) == open && open == old(open) - (set id | id in closed)
      ensures ok ==> ClosedSoFar(old(open), open, closed, {}, wanted)
    {
      ok, closed := true, [];
      var todo := open.Keys;
      while todo != {}
        invariant sent == old(sent) + Closes(closed)
        invariant ClosedSoFar(old(open), open, closed, todo, wanted)
        decreases todo
      {
        var id :| id in todo;
        ClosedOneMore(old(open), open, closed, todo, wanted, id);
        if id !in Ids(wanted) {
          ok := SendRaw(Close(id));
          if !ok { return; }
          closed, open := closed + [id], open - {id};
        }
        todo := todo - {id};
      }
      ok := true;
    }

    /** Second half: REQ what is wanted, not yet open as wanted, and not held back. */
    method RequestWanted(wanted: seq<Subscription>, now: nat) returns (ok: bool, frames: seq<Frame>)
      requires OpenUnblocked(open, retries, now)
      modifies this`open, this`sent, this`sendsLeft
      ensures sent == old(sent) + frames
      ensures Replay(old(open), frames) == open && OpenUnblocked(open, retries, now)
      ensures ok ==> RequestedSoFar(old(open), open, frames, wanted, [], retries, now)
    {
      frames := [];
      ghost var done: seq<Subscription> := [];
      var rest := wanted;
      while rest != []
        invariant done + rest == wanted
        invariant sent == old(sent) + frames
        invariant RequestedSoFar(old(open), open, frames, done, rest, retries, now)
        decreases rest
      {
        var sub := rest[0];
        RequestedOneMore(old(open), open, frames, done, rest, retries, now);
        if Decide(open, retries, sub, now) == Send {
          ok := SendRaw(Req(sub.id, sub.filter));
          if !ok { return; }
          frames, open := frames + [Req(sub.id, sub.filter)], open[sub.id := sub.filter];
        }
        done, rest := done + [sub], rest[1..];
      }
      assert done == wanted;
      ok := true;
    }

    /**
     Replaying what went out on a relay that agreed with `open` gives the new `open`,
     even when a write failed half way; a completed pass leaves exactly the wanted set
     minus the blocked ids, and sends precisely the stale CLOSEs and then the due REQs.
     */
    method Reconcile(state: SessionState, now: nat) returns (ok: bool, closed: seq<Id>, frames: seq<Frame>)
      requires OpenUnblocked(open, retries, now)
      modifies this, state
      ensures state.desired == old(state.desired) && state.transient == old(state.transient) && state.removed == {}
      ensures retries == old(retries) - old(state.removed)
      ensures sent == old(sent) + Closes(closed) + frames && Replay(Replay(old(open), Closes(closed)), frames) == open
      ensures OpenUnblocked(open, retries, now)
      ensures ok ==> (set id | id in closed) == Stale(old(open), state.desired + state.transient)
      ensures ok ==> frames == Requests(old(open) - (set id | id in closed), retries,
                                        state.desired + state.transient, now)
      ensures ok && OneFilterPerId(state.desired + state.transient) ==>
                InLine(open, state.desired + state.transient, retries, now)
    {
      var wanted, gone := state.Drain();
      retries := retries - gone;
      ok, closed := CloseStale(wanted);
      frames := [];
      if ok {
        ok, frames := RequestWanted(wanted, now);
        assert wanted + [] == wanted;
      }
    }
  }
}
