/**
 Choosing what the persona catalog shows: for each author and `d` tag the newest event,
 lowest id first among equals, claims the coordinate before anything else is asked of it.
 Event ids and public keys are the numbers their 32 bytes spell.
 */
module CatalogHeads {
  import opened Options

  const KIND_PERSONA: nat := 30175

  datatype Event = Event(id: nat, author: nat, createdAt: nat, kind: nat, tags: seq<seq<string>>, content: string)

  datatype Publication<A> = Publication(eventId: nat, owner: nat, source: string, createdAt: nat, agent: A)

  // ---- Tags ----

  /** A tag called `name` with a value; an exact tag has no further values. */
  predicate Qualifies(tag: seq<string>, name: string, exact: bool) {
    |tag| >= 2 && (exact ==> |tag| == 2) && tag[0] == name
  }

  /** The values of the tags that qualify. */
  function TagValues(tags: seq<seq<string>>, name: string, exact: bool): seq<string> {
    if tags == [] then []
    else (if Qualifies(tags[0], name, exact) then [tags[0][1]] else []) + TagValues(tags[1..], name, exact)
  }

  function CoordinateTag(e: Event, name: string): Option<string> {
    var values := TagValues(e.tags, name, false);
    if |values| == 1 then Some(values[0]) else None
  }

  function ExactTag(e: Event, name: string): Option<string> {
    var values := TagValues(e.tags, name, true);
    if |values| == 1 then Some(values[0]) else None
  }

  ghost predicate OnlyOne(tags: seq<seq<string>>, name: string, exact: bool, i: nat)
    requires i < |tags|
  {
    Qualifies(tags[i], name, exact) && forall j :: 0 <= j < |tags| && Qualifies(tags[j], name, exact) ==> j == i
  }

  lemma {:induction false} NoneQualifies(tags: seq<seq<string>>, name: string, exact: bool)
    ensures TagValues(tags, name, exact) == [] <==> forall j :: 0 <= j < |tags| ==> !Qualifies(tags[j], name, exact)
  {
    if tags != [] {
      NoneQualifies(tags[1..], name, exact);
      assert forall j :: 1 <= j < |tags| ==> tags[j] == tags[1..][j - 1];
    }
  }

  lemma {:induction false} OneValueOneTag(tags: seq<seq<string>>, name: string, exact: bool) returns (i: nat)
    requires |TagValues(tags, name, exact)| == 1
    ensures i < |tags| && OnlyOne(tags, name, exact, i) && TagValues(tags, name, exact) == [tags[i][1]]
  {
    if Qualifies(tags[0], name, exact) {
      NoneQualifies(tags[1..], name, exact);
      i := 0;
      assert forall j :: 1 <= j < |tags| ==> tags[j] == tags[1..][j - 1];
    } else {
      var k := OneValueOneTag(tags[1..], name, exact);
      i := k + 1;
      assert forall j :: 1 <= j < |tags| ==> tags[j] == tags[1..][j - 1];
    }
  }

  lemma {:induction false} OneTagOneValue(tags: seq<seq<string>>, name: string, exact: bool, i: nat)
    requires i < |tags| && OnlyOne(tags, name, exact, i)
    ensures TagValues(tags, name, exact) == [tags[i][1]]
  {
    assert forall j :: 1 <= j < |tags| ==> tags[j] == tags[1..][j - 1];
    if i == 0 {
      NoneQualifies(tags[1..], name, exact);
    } else {
      OneTagOneValue(tags[1..], name, exact, i - 1);
    }
  }

  /** A tag is read if and only if exactly one qualifies, and then it is that one's value. */
  lemma ReadIffOnlyOne(e: Event, name: string, exact: bool, value: string)
    ensures var read := if exact then ExactTag(e, name) else CoordinateTag(e, name);
            read == Some(value)
            <==> exists i :: 0 <= i < |e.tags| && OnlyOne(e.tags, name, exact, i) && e.tags[i][1] == value
  {
    if |TagValues(e.tags, name, exact)| == 1 {
      var i := OneValueOneTag(e.tags, name, exact);
      assert OnlyOne(e.tags, name, exact, i);
    }
    forall i | 0 <= i < |e.tags| && OnlyOne(e.tags, name, exact, i)
      ensures TagValues(e.tags, name, exact) == [e.tags[i][1]]
    {
      OneTagOneValue(e.tags, name, exact, i);
    }
  }

  // ---- The rule ----

  predicate Candidate(e: Event) {
    e.kind == KIND_PERSONA && CoordinateTag(e, "d").Some? && CoordinateTag(e, "d").value != ""
  }

  function Coordinate(e: Event): (nat, string)
    requires Candidate(e)
  {
    (e.author, CoordinateTag(e, "d").value)
  }

  predicate Ahead(e: Event, f: Event) {
    e.createdAt > f.createdAt || (e.createdAt == f.createdAt && e.id < f.id)
  }

  ghost predicate DistinctIds(events: seq<Event>) {
    forall i, j :: 0 <= i < j < |events| ==> events[i].id != events[j].id
  }

  /** The addressable-event head of its coordinate among `events`. */
  ghost predicate IsHead(e: Event, events: seq<Event>) {
    e in events && Candidate(e)
    && forall f :: f in events && f != e && Candidate(f) && Coordinate(f) == Coordinate(e) ==> Ahead(e, f)
  }

  predicate Visible<A>(e: Event, parse: string -> Option<A>) {
    ExactTag(e, "shared") == Some("true") && parse(e.content).Some?
  }

  function Project<A>(e: Event, parse: string -> Option<A>): Publication<A>
    requires Candidate(e) && Visible(e, parse)
  {
    Publication(e.id, e.author, Coordinate(e).1, e.createdAt, parse(e.content).value)
  }

  predicate Precedes<A>(p: Publication<A>, q: Publication<A>) {
    p.createdAt > q.createdAt || (p.createdAt == q.createdAt && p.eventId < q.eventId)
  }

  /** Exactly the visible heads, newest first. */
  ghost predicate Shows<A(!new)>(events: seq<Event>, parse: string -> Option<A>, pubs: seq<Publication<A>>) {
    && (forall p :: p in pubs ==> exists e :: IsHead(e, events) && Visible(e, parse) && p == Project(e, parse))
    && (forall e :: IsHead(e, events) && Visible(e, parse) ==> Project(e, parse) in pubs)
    && (forall i, j :: 0 <= i < j < |pubs| ==> Precedes(pubs[i], pubs[j]))
  }

  // ---- The rule, on the tags themselves ----

  predicate IsDTag(tag: seq<string>) { |tag| >= 2 && tag[0] == "d" }

  predicate IsSharedTag(tag: seq<string>) { |tag| == 2 && tag[0] == "shared" }

  /** A persona event whose only `d` tag says `d`, and something. */
  ghost predicate Offers(e: Event, d: string) {
    && e.kind == 30175 && d != ""
    && exists i :: 0 <= i < |e.tags| && IsDTag(e.tags[i]) && e.tags[i][1] == d
                   && forall j :: 0 <= j < |e.tags| && IsDTag(e.tags[j]) ==> j == i
  }

  /** Its only two-element `shared` tag says `true`. */
  ghost predicate MarkedShared(e: Event) {
    exists i :: 0 <= i < |e.tags| && IsSharedTag(e.tags[i]) && e.tags[i][1] == "true"
                && forall j :: 0 <= j < |e.tags| && IsSharedTag(e.tags[j]) ==> j == i
  }

  /** The latest its author offers under `d`, the lowest id among equals. */
  ghost predicate Newest(e: Event, d: string, events: seq<Event>) {
    && e in events && Offers(e, d)
    && forall f :: f in events && f != e && f.author == e.author && Offers(f, d) ==>
         f.createdAt < e.createdAt || (f.createdAt == e.createdAt && e.id < f.id)
  }

  /** The catalog entry an event makes. */
  ghost predicate MakesEntry<A>(e: Event, parse: string -> Option<A>, p: Publication<A>) {
    p.eventId == e.id && p.owner == e.author && p.createdAt == e.createdAt && parse(e.content) == Some(p.agent)
  }

  /** The entries are those of the newest events that are shared and can be read, latest first. */
  ghost predicate Publishes<A(!new)>(events: seq<Event>, parse: string -> Option<A>, pubs: seq<Publication<A>>) {
    && (forall p :: p in pubs <==>
          exists e :: Newest(e, p.source, events) && MarkedShared(e) && MakesEntry(e, parse, p))
    && (forall i, j :: 0 <= i < j < |pubs| ==>
          || pubs[j].createdAt < pubs[i].createdAt
          || (pubs[j].createdAt == pubs[i].createdAt && pubs[i].eventId < pubs[j].eventId))
  }

  lemma OffersIff(e: Event, d: string)
    ensures Offers(e, d) <==> Candidate(e) && Coordinate(e).1 == d
  {
    ReadIffOnlyOne(e, "d", false, d);
    assert forall t: seq<string> :: IsDTag(t) <==> Qualifies(t, "d", false);
    forall i | 0 <= i < |e.tags|
      ensures OnlyOne(e.tags, "d", false, i)
              <==> IsDTag(e.tags[i]) && forall j :: 0 <= j < |e.tags| && IsDTag(e.tags[j]) ==> j == i
    {
    }
  }

  lemma SharedIff(e: Event)
    ensures MarkedShared(e) <==> ExactTag(e, "shared") == Some("true")
  {
    ReadIffOnlyOne(e, "shared", true, "true");
    assert forall t: seq<string> :: IsSharedTag(t) <==> Qualifies(t, "shared", true);
    forall i | 0 <= i < |e.tags|
      ensures OnlyOne(e.tags, "shared", true, i)
              <==> IsSharedTag(e.tags[i]) && forall j :: 0 <= j < |e.tags| && IsSharedTag(e.tags[j]) ==> j == i
    {
    }
  }

  lemma NewestIff(e: Event, d: string, events: seq<Event>)
    ensures Newest(e, d, events) <==> IsHead(e, events) && Coordinate(e).1 == d
  {
    OffersIff(e, d);
    forall f: Event
      ensures Offers(f, d) <==> Candidate(f) && Coordinate(f).1 == d
    {
      OffersIff(f, d);
    }
  }

  lemma EntryIff<A(!new)>(e: Event, events: seq<Event>, parse: string -> Option<A>, p: Publication<A>)
    ensures Newest(e, p.source, events) && MarkedShared(e) && MakesEntry(e, parse, p)
            <==> IsHead(e, events) && Visible(e, parse) && p == Project(e, parse)
  {
    NewestIff(e, p.source, events);
    SharedIff(e);
  }

  lemma ShowsPublishes<A(!new)>(events: seq<Event>, parse: string -> Option<A>, pubs: seq<Publication<A>>)
    requires Shows(events, parse, pubs)
    ensures Publishes(events, parse, pubs)
  {
    forall p: Publication<A>, e: Event
      ensures Newest(e, p.source, events) && MarkedShared(e) && MakesEntry(e, parse, p)
              <==> IsHead(e, events) && Visible(e, parse) && p == Project(e, parse)
    {
      EntryIff(e, events, parse, p);
    }
  }

  // ---- Sorting ----

  ghost predicate Sorted(s: seq<Event>) { forall i, j :: 0 <= i < j < |s| ==> Ahead(s[i], s[j]) }

  function Insert(e: Event, s: seq<Event>): (r: seq<Event>)
    ensures multiset(r) == multiset{e} + multiset(s)
  {
    if s == [] || Ahead(e, s[0]) then [e] + s
    else
      assert s == [s[0]] + s[1..];
      [s[0]] + Insert(e, s[1..])
  }

  function NewestFirst(events: seq<Event>): (r: seq<Event>)
    ensures multiset(r) == multiset(events)
  {
    if events == [] then []
    else
      assert events == [events[0]] + events[1..];
      Insert(events[0], NewestFirst(events[1..]))
  }

  lemma SameElements(s: seq<Event>, t: seq<Event>)
    requires multiset(s) == multiset(t)
    ensures forall e :: e in s <==> e in t
  {
    forall e ensures e in s <==> e in t {
      assert e in s <==> e in multiset(s);
      assert e in t <==> e in multiset(t);
    }
  }

  lemma {:induction false} InsertSorts(e: Event, s: seq<Event>)
    requires Sorted(s) && forall f :: f in s ==> f.id != e.id
    ensures Sorted(Insert(e, s))
  {
    if s != [] && !Ahead(e, s[0]) {
      InsertSorts(e, s[1..]);
      var r := Insert(e, s[1..]);
      SameElements(r, [e] + s[1..]);
      forall f | f in r ensures Ahead(s[0], f) {
        assert f in [e] + s[1..];
      }
    }
  }

  lemma {:induction false} NewestFirstSorts(events: seq<Event>)
    requires DistinctIds(events)
    ensures Sorted(NewestFirst(events))
  {
    if events != [] {
      NewestFirstSorts(events[1..]);
      SameElements(NewestFirst(events[1..]), events[1..]);
      InsertSorts(events[0], NewestFirst(events[1..]));
    }
  }

  // ---- The claim loop ----

  /** The first candidate of its coordinate in `s`. */
  ghost predicate Claims(s: seq<Event>, k: nat)
    requires k < |s|
  {
    Candidate(s[k]) && forall j :: 0 <= j < k && Candidate(s[j]) ==> Coordinate(s[j]) != Coordinate(s[k])
  }

  lemma ClaimsIffHead(s: seq<Event>, events: seq<Event>, k: nat)
    requires Sorted(s) && k < |s| && (forall e :: e in s <==> e in events)
    ensures Claims(s, k) <==> IsHead(s[k], events)
  {
    if Claims(s, k) {
      forall f | f in events && f != s[k] && Candidate(f) && Coordinate(f) == Coordinate(s[k]) ensures Ahead(s[k], f) {
        var j :| 0 <= j < |s| && s[j] == f;
      }
    }
  }

  /** `c` is the coordinate of one of the first `i`. */
  ghost predicate Met(s: seq<Event>, i: nat, c: (nat, string))
    requires i <= |s|
  {
    exists k :: 0 <= k < i && Candidate(s[k]) && Coordinate(s[k]) == c
  }

  /** `p` is the claim of one of the first `i`. */
  ghost predicate Claimed<A>(s: seq<Event>, i: nat, parse: string -> Option<A>, p: Publication<A>)
    requires i <= |s|
  {
    exists k :: 0 <= k < i && ClaimIs(s, k, parse, p)
  }

  ghost predicate ClaimIs<A>(s: seq<Event>, k: nat, parse: string -> Option<A>, p: Publication<A>)
    requires k < |s|
  {
    Claims(s, k) && Visible(s[k], parse) && p == Project(s[k], parse)
  }

  /** What the loop has after looking at the first `i` events. */
  ghost predicate Taken<A(!new)>(s: seq<Event>, i: nat, parse: string -> Option<A>, pubs: seq<Publication<A>>)
    requires i <= |s|
  {
    && (forall p :: p in pubs <==> Claimed(s, i, parse, p))
    && (forall a, b :: 0 <= a < b < |pubs| ==> Precedes(pubs[a], pubs[b]))
  }

  lemma NewIsClaim(s: seq<Event>, i: nat)
    requires i < |s| && Candidate(s[i])
    ensures !Met(s, i, Coordinate(s[i])) <==> Claims(s, i)
  {
  }

  lemma TakenSame<A(!new)>(s: seq<Event>, i: nat, parse: string -> Option<A>, pubs: seq<Publication<A>>)
    requires i < |s| && Taken(s, i, parse, pubs) && !(Claims(s, i) && Visible(s[i], parse))
    ensures Taken(s, i + 1, parse, pubs)
  {
    forall p
      ensures Claimed(s, i + 1, parse, p) <==> Claimed(s, i, parse, p)
    {
      assert !ClaimIs(s, i, parse, p);
    }
  }

  lemma TakenOneMore<A(!new)>(s: seq<Event>, i: nat, parse: string -> Option<A>, pubs: seq<Publication<A>>)
    requires Sorted(s) && i < |s| && Taken(s, i, parse, pubs) && Claims(s, i) && Visible(s[i], parse)
    ensures Taken(s, i + 1, parse, pubs + [Project(s[i], parse)])
  {
    var new' := Project(s[i], parse);
    assert ClaimIs(s, i, parse, new');
    forall p
      ensures p in pubs + [new'] <==> Claimed(s, i + 1, parse, p)
    {
      assert ClaimIs(s, i, parse, p) <==> p == new';
    }
    forall p | p in pubs
      ensures Precedes(p, new')
    {
      var k :| 0 <= k < i && ClaimIs(s, k, parse, p);
      assert Ahead(s[k], s[i]);
    }
  }

  lemma TakenShows<A(!new)>(s: seq<Event>, events: seq<Event>, parse: string -> Option<A>, pubs: seq<Publication<A>>)
    requires Sorted(s) && (forall e :: e in s <==> e in events) && Taken(s, |s|, parse, pubs)
    ensures Shows(events, parse, pubs)
  {
    forall p | p in pubs
      ensures exists e :: IsHead(e, events) && Visible(e, parse) && p == Project(e, parse)
    {
      var k :| 0 <= k < |s| && ClaimIs(s, k, parse, p);
      ClaimsIffHead(s, events, k);
    }
    forall e | IsHead(e, events) && Visible(e, parse)
      ensures Project(e, parse) in pubs
    {
      var k :| 0 <= k < |s| && s[k] == e;
      ClaimsIffHead(s, events, k);
      assert ClaimIs(s, k, parse, Project(e, parse));
    }
  }

  method PublicationsFromVerifiedEvents<A(!new)>(events: seq<Event>, parse: string -> Option<A>)
    returns (publications: seq<Publication<A>>)
    requires DistinctIds(events)
    ensures Shows(events, parse, publications) && Publishes(events, parse, publications)
  {
    var s := NewestFirst(events);
    NewestFirstSorts(events);
    SameElements(s, events);
    var claimed: set<(nat, string)> := {};
    publications := [];
    for i := 0 to |s|
      invariant forall c :: c in claimed <==> Met(s, i, c)
      invariant Taken(s, i, parse, publications)
    {
      var e := s[i];
      if Candidate(e) && Coordinate(e) !in claimed {
        // The claim stands whether or not the head is shown.
        NewIsClaim(s, i);
        claimed := claimed + {Coordinate(e)};
        if Visible(e, parse) {
          TakenOneMore(s, i, parse, publications);
          publications := publications + [Project(e, parse)];
        } else {
          TakenSame(s, i, parse, publications);
        }
      } else {
        if Candidate(e) { NewIsClaim(s, i); }
        TakenSame(s, i, parse, publications);
      }
    }
    TakenShows(s, events, parse, publications);
    ShowsPublishes(events, parse, publications);
  }

  // ---- What the rule settles ----

  /** One entry per coordinate. */
  lemma OneEntryPerCoordinate<A(!new)>(events: seq<Event>, parse: string -> Option<A>, pubs: seq<Publication<A>>,
                                       i: nat, j: nat)
    requires Shows(events, parse, pubs) && i < j < |pubs|
    ensures (pubs[i].owner, pubs[i].source) != (pubs[j].owner, pubs[j].source)
  {
    assert pubs[i] in pubs && pubs[j] in pubs;
    var e :| IsHead(e, events) && Visible(e, parse) && pubs[i] == Project(e, parse);
    var f :| IsHead(f, events) && Visible(f, parse) && pubs[j] == Project(f, parse);
    assert Precedes(pubs[i], pubs[j]);
  }

  /** An older event never surfaces behind a newer one, shown or not. */
  lemma OlderNeverSurfaces<A(!new)>(events: seq<Event>, parse: string -> Option<A>, pubs: seq<Publication<A>>,
                                    older: Event, newer: Event)
    requires Shows(events, parse, pubs) && DistinctIds(events)
    requires older in events && newer in events && Candidate(older) && Candidate(newer)
    requires Coordinate(older) == Coordinate(newer) && Ahead(newer, older)
    ensures forall p :: p in pubs ==> p.eventId != older.id
  {
    forall p | p in pubs ensures p.eventId != older.id {
      var e :| IsHead(e, events) && Visible(e, parse) && p == Project(e, parse);
    }
  }

  /** The answer does not depend on the order the events came in. */
  lemma OrderDoesNotMatter<A(!new)>(events: seq<Event>, shuffled: seq<Event>, parse: string -> Option<A>,
                                    p: seq<Publication<A>>, q: seq<Publication<A>>)
    requires multiset(events) == multiset(shuffled)
    requires Shows(events, parse, p) && Shows(shuffled, parse, q)
    ensures p == q
  {
    SameElements(events, shuffled);
    assert forall e :: IsHead(e, events) <==> IsHead(e, shuffled);
    assert forall x :: x in p <==> x in q;
    SortedSequencesAgree(p, q);
  }

  lemma {:induction false} SortedSequencesAgree<A>(p: seq<Publication<A>>, q: seq<Publication<A>>)
    requires forall i, j :: 0 <= i < j < |p| ==> Precedes(p[i], p[j])
    requires forall i, j :: 0 <= i < j < |q| ==> Precedes(q[i], q[j])
    requires forall x :: x in p <==> x in q
    ensures p == q
  {
    assert q == [] || q[0] in p;
    if p != [] {
      assert p[0] in q;
      assert p[0] == q[0];
      forall x ensures x in p[1..] <==> x in q[1..] {
        assert x in p <==> x == p[0] || x in p[1..];
        assert x in q <==> x == q[0] || x in q[1..];
      }
      SortedSequencesAgree(p[1..], q[1..]);
      assert p == [p[0]] + p[1..] && q == [q[0]] + q[1..];
    }
  }
}
