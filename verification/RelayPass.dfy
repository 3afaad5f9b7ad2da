/** The transition system's pass, left undisturbed, is the pass of `Connection.Reconcile`. */
module RelayPass {
  import opened RelayClosed
  import opened RelaySession
  import opened RelayProtocol

  lemma {:induction false} ReplayCons(relay: map<Id, Filter>, f: Frame, rest: seq<Frame>)
    ensures Replay(relay, [f] + rest) == Replay(Serve(relay, f), rest)
  {
    if rest == [] {
      assert [f] + rest == [f];
    } else {
      var init := rest[..|rest| - 1];
      ReplayCons(relay, f, init);
      assert ([f] + rest)[..|rest|] == [f] + init;
    }
  }

  /** The socket loop gets from `a` to `b` by these steps, with nobody in between. */
  ghost predicate Leads(a: State, steps: seq<PassStep>, b: State)
    decreases |steps|
  {
    if steps == [] then a == b else PassMay(a, steps[0]) && Leads(PassNext(a, steps[0]), steps[1..], b)
  }

  lemma LeadsCons(a: State, p: PassStep, mid: State, steps: seq<PassStep>, b: State)
    requires PassMay(a, p) && PassNext(a, p) == mid && Leads(mid, steps, b)
    ensures Leads(a, [p] + steps, b)
  {
    assert ([p] + steps)[1..] == steps;
  }

  lemma {:induction false} LeadsOn(a: State, steps: seq<PassStep>, b: State, more: seq<PassStep>, c: State)
    requires Leads(a, steps, b) && Leads(b, more, c)
    ensures Leads(a, steps + more, c)
    decreases |steps|
  {
    if steps == [] {
      assert steps + more == more;
    } else {
      LeadsOn(PassNext(a, steps[0]), steps[1..], b, more, c);
      assert (steps + more)[1..] == steps[1..] + more;
    }
  }

  // ---- The REQ half ----

  function AtSending(s: State, rest: seq<Subscription>, open: map<Id, Filter>, log: seq<Entry>): State {
    s.(pc := Sending(rest), open := open, log := log)
  }

  function Noted(frames: seq<Frame>, now: nat): seq<Entry> {
    seq(|frames|, i requires 0 <= i < |frames| => Requested(frames[i].id, now))
  }

  lemma NotedCons(log: seq<Entry>, f: Frame, frames: seq<Frame>, now: nat)
    ensures log + Noted([f] + frames, now) == log + [Requested(f.id, now)] + Noted(frames, now)
  {
  }

  lemma SendOne(s: State, rest: seq<Subscription>, open: map<Id, Filter>, log: seq<Entry>)
    requires rest != [] && Decide(open, s.retries, rest[0], s.now) == Send
    ensures PassMay(AtSending(s, rest, open, log), RequestSent)
    ensures PassNext(AtSending(s, rest, open, log), RequestSent)
            == AtSending(s, rest[1..], open[rest[0].id := rest[0].filter], log + [Requested(rest[0].id, s.now)])
  {
  }

  lemma SkipOne(s: State, rest: seq<Subscription>, open: map<Id, Filter>, log: seq<Entry>)
    requires rest != [] && Decide(open, s.retries, rest[0], s.now) != Send
    ensures PassMay(AtSending(s, rest, open, log), RequestSkipped)
    ensures PassNext(AtSending(s, rest, open, log), RequestSkipped) == AtSending(s, rest[1..], open, log)
  {
  }

  lemma EndSending(s: State, open: map<Id, Filter>, log: seq<Entry>)
    ensures Leads(AtSending(s, [], open, log), [PassDone], s.(pc := Idle, open := open, log := log))
  {
    LeadsCons(AtSending(s, [], open, log), PassDone, s.(pc := Idle, open := open, log := log), [],
              s.(pc := Idle, open := open, log := log));
  }

  lemma {:induction false} SendAll(s: State, rest: seq<Subscription>, open: map<Id, Filter>, log: seq<Entry>,
                                   end: State)
    returns (steps: seq<PassStep>)
    requires var frames := Requests(open, s.retries, rest, s.now);
             end == s.(pc := Idle, open := Replay(open, frames), log := log + Noted(frames, s.now))
    ensures Leads(AtSending(s, rest, open, log), steps, end)
    decreases rest
  {
    if rest == [] {
      assert log + Noted([], s.now) == log;
      EndSending(s, open, log);
      steps := [PassDone];
    } else if Decide(open, s.retries, rest[0], s.now) == Send {
      var f, wider := Req(rest[0].id, rest[0].filter), open[rest[0].id := rest[0].filter];
      var later := Requests(wider, s.retries, rest[1..], s.now);
      ReplayCons(open, f, later);
      NotedCons(log, f, later, s.now);
      SendOne(s, rest, open, log);
      var more := SendAll(s, rest[1..], wider, log + [Requested(f.id, s.now)], end);
      LeadsCons(AtSending(s, rest, open, log), RequestSent,
                AtSending(s, rest[1..], wider, log + [Requested(f.id, s.now)]), more, end);
      steps := [RequestSent] + more;
    } else {
      SkipOne(s, rest, open, log);
      var more := SendAll(s, rest[1..], open, log, end);
      LeadsCons(AtSending(s, rest, open, log), RequestSkipped, AtSending(s, rest[1..], open, log), more, end);
      steps := [RequestSkipped] + more;
    }
  }

  // ---- The CLOSE half ----

  function AtClosing(s: State, subs: seq<Subscription>, open: map<Id, Filter>): State {
    s.(pc := Closing(subs), open := open)
  }

  /** The stale ids, each once, in the order the map yields them. */
  ghost predicate Lists(order: seq<Id>, ids: set<Id>) {
    && (forall i, j :: 0 <= i < j < |order| ==> order[i] != order[j])
    && (forall id :: id in order <==> id in ids)
  }

  lemma ListsRest(order: seq<Id>, ids: set<Id>)
    requires Lists(order, ids) && order != []
    ensures order[0] in ids && Lists(order[1..], ids - {order[0]})
  {
    forall id
      ensures id in order[1..] <==> id in ids - {order[0]}
    {
      assert id in order <==> id == order[0] || id in order[1..];
    }
  }

  lemma CloseOne(s: State, subs: seq<Subscription>, open: map<Id, Filter>, id: Id)
    requires id in Stale(open, subs)
    ensures PassMay(AtClosing(s, subs, open), CloseSent(id))
    ensures PassNext(AtClosing(s, subs, open), CloseSent(id)) == AtClosing(s, subs, open - {id})
    ensures Stale(open - {id}, subs) == Stale(open, subs) - {id}
  {
  }

  lemma EndClosing(s: State, subs: seq<Subscription>, open: map<Id, Filter>)
    requires Stale(open, subs) == {}
    ensures Leads(AtClosing(s, subs, open), [ClosesDone], AtSending(s, subs, open, s.log))
  {
    var end := AtSending(s, subs, open, s.log);
    LeadsCons(AtClosing(s, subs, open), ClosesDone, end, [], end);
  }

  lemma {:induction false} CloseAll(s: State, subs: seq<Subscription>, open: map<Id, Filter>, order: seq<Id>,
                                    end: State)
    returns (steps: seq<PassStep>)
    requires Lists(order, Stale(open, subs)) && end == AtSending(s, subs, Replay(open, Closes(order)), s.log)
    ensures Leads(AtClosing(s, subs, open), steps, end)
    decreases order
  {
    if order == [] {
      assert Stale(open, subs) == {};
      EndClosing(s, subs, open);
      steps := [ClosesDone];
    } else {
      ListsRest(order, Stale(open, subs));
      CloseOne(s, subs, open, order[0]);
      assert Closes(order) == [Close(order[0])] + Closes(order[1..]);
      ReplayCons(open, Close(order[0]), Closes(order[1..]));
      var more := CloseAll(s, subs, open - {order[0]}, order[1..], end);
      LeadsCons(AtClosing(s, subs, open), CloseSent(order[0]), AtClosing(s, subs, open - {order[0]}), more, end);
      steps := [CloseSent(order[0])] + more;
    }
  }

  // ---- The pass ----

  lemma SnapshotTaken(s: State)
    requires s.pc.Start?
    ensures PassMay(s, Snapshot)
    ensures PassNext(s, Snapshot)
            == AtClosing(s.(removed := {}, retries := s.retries - s.removed, log := s.log + [Drained(s.removed)]),
                         Wanted(s), s.open)
  {
  }

  /**
   Whatever order the stale ids come in, a pass nobody interrupts takes the loop from the top of `reconcile` back to
   `select!` with `removed` drained, its retries gone, and `open` as the stale CLOSEs and the due REQs leave it.
   */
  lemma UndisturbedPass(s: State, order: seq<Id>) returns (steps: seq<PassStep>, t: State)
    requires s.pc.Start? && Lists(order, Stale(s.open, Wanted(s)))
    ensures Leads(s, steps, t)
    ensures t.pc.Idle? && t.removed == {} && t.retries == s.retries - s.removed
    ensures var closed := Replay(s.open, Closes(order));
            t.open == Replay(closed, Requests(closed, t.retries, Wanted(s), s.now))
  {
    var d := s.(removed := {}, retries := s.retries - s.removed, log := s.log + [Drained(s.removed)]);
    SnapshotTaken(s);
    var closed := Replay(s.open, Closes(order));
    var mid := AtSending(d, Wanted(s), closed, d.log);
    var closes := CloseAll(d, Wanted(s), s.open, order, mid);
    var frames := Requests(closed, d.retries, Wanted(s), s.now);
    t := d.(pc := Idle, open := Replay(closed, frames), log := d.log + Noted(frames, s.now));
    var requests := SendAll(d, Wanted(s), closed, d.log, t);
    LeadsOn(AtClosing(d, Wanted(s), s.open), closes, mid, requests, t);
    LeadsCons(s, Snapshot, AtClosing(d, Wanted(s), s.open), closes + requests, t);
    steps := [Snapshot] + (closes + requests);
  }
}
