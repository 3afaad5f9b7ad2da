/** `fetch_persona_catalog`: the paging loop, request by request, and what the command returns. */
module CatalogFetch {
  import opened Options
  import opened CatalogHeads
  import opened CatalogPaging

  lemma OverlayKeyed(byId: map<nat, Event>, page: seq<Event>, merged: map<nat, Event>)
    requires Overlay(byId, page, merged)
    ensures Keyed(byId) ==> Keyed(merged)
    ensures page == [] ==> merged.Keys == byId.Keys
  {
  }

  method MergeVerifiedPage(byId: map<nat, Event>, wireLen: nat, verified: seq<Event>)
    returns (merged: map<nat, Event>, progress: PageProgress)
    ensures Overlay(byId, verified, merged) && (Keyed(byId) ==> Keyed(merged))
    ensures progress.Next? <==> wireLen >= PAGE_SIZE && |merged| != |byId|
    ensures progress.Next? ==> OldestOf(verified, progress.until)
  {
    var oldest := OldestTime(verified);
    merged := byId;
    for i := 0 to |verified|
      invariant Overlay(byId, verified[..i], merged)
    {
      assert verified[..i + 1] == verified[..i] + [verified[i]];
      OverlayOneMore(byId, verified[..i], merged, verified[i]);
      merged := merged[verified[i].id := verified[i]];
    }
    assert verified[..|verified|] == verified;
    OverlayKeyed(byId, verified, merged);
    if wireLen < PAGE_SIZE || |merged| == |byId| { return merged, Finished; }
    assert verified == [] ==> merged.Keys == byId.Keys;
    match oldest
    case None => progress := Finished;
    case Some(t) => progress := Next(t);
  }

  lemma MergeOfPage(catalog: map<nat, Event>, until: Option<nat>, byId: map<nat, Event>, page: seq<Event>,
                    merged: map<nat, Event>, progress: PageProgress)
    requires IsPage(catalog, until, page) && Overlay(byId, page, merged)
    requires forall id :: id in byId ==> id in catalog && byId[id] == catalog[id]
    requires progress.Next? <==> |page| >= PAGE_SIZE && |merged| != |byId|
    requires progress.Next? ==> OldestOf(page, progress.until)
    ensures MergedFrom(catalog, byId, page, merged, progress)
  {
  }

  // ---- Which pages are asked for ----

  /** One request: its cursor, and the genuine events that came back unless it failed. */
  datatype Request = Request(cursor: Option<nat>, page: Option<seq<Event>>)

  function Answer(relay: Relay, genuine: Event -> bool, n: nat, cursor: Option<nat>): Option<seq<Event>> {
    match relay(n, cursor)
    case None => None
    case Some(raw) => Some(Genuine(raw, genuine))
  }

  function Got(r: Request): seq<Event> { if r.page.Some? then r.page.value else [] }

  /** The ids in hand after these requests. */
  function Seen(asked: seq<Request>): set<nat> {
    if asked == [] then {} else Seen(asked[..|asked| - 1]) + PageIds(Got(asked[|asked| - 1]))
  }

  /** 500 genuine events, one of them new. */
  predicate Fruitful(r: Request, seen: set<nat>) { |Got(r)| >= 500 && !(PageIds(Got(r)) <= seen) }

  /** The request after `asked[k]`: it is made because that page was fruitful, from the oldest second it brought. */
  ghost predicate LedTo(asked: seq<Request>, k: nat, cursor: Option<nat>)
    requires k < |asked|
  {
    Fruitful(asked[k], Seen(asked[..k])) && cursor.Some? && OldestOf(Got(asked[k]), cursor.value)
  }

  ghost predicate Linked(asked: seq<Request>, k: nat)
    requires k + 1 < |asked|
  {
    LedTo(asked, k, asked[k + 1].cursor)
  }

  ghost predicate Chained(asked: seq<Request>) {
    && (asked != [] ==> asked[0].cursor.None?)
    && forall k :: 0 <= k < |asked| - 1 ==> Linked(asked, k)
  }

  ghost predicate NextFrom(asked: seq<Request>, cursor: Option<nat>) {
    if asked == [] then cursor.None? else LedTo(asked, |asked| - 1, cursor)
  }

  predicate Answered(relay: Relay, genuine: Event -> bool, k: nat, r: Request) {
    r.page == Answer(relay, genuine, k, r.cursor)
  }

  ghost predicate AllAnswered(relay: Relay, genuine: Event -> bool, asked: seq<Request>) {
    forall k :: 0 <= k < |asked| ==> Answered(relay, genuine, k, asked[k])
  }

  lemma AnsweredSnoc(relay: Relay, genuine: Event -> bool, asked: seq<Request>, r: Request)
    requires AllAnswered(relay, genuine, asked) && Answered(relay, genuine, |asked|, r)
    ensures AllAnswered(relay, genuine, asked + [r])
  {
  }

  /** The requests of one fetch: it ends at a page that fails or bears no fruit, or after 40. */
  ghost predicate Complete(asked: seq<Request>) {
    && 1 <= |asked| <= 40
    && Chained(asked)
    && (|asked| == 40 || !Fruitful(asked[|asked| - 1], Seen(asked[..|asked| - 1])))
  }

  ghost predicate Asked(relay: Relay, genuine: Event -> bool, asked: seq<Request>) {
    AllAnswered(relay, genuine, asked) && Complete(asked)
  }

  lemma LinkStays(asked: seq<Request>, r: Request, k: nat)
    requires k + 1 < |asked| && Linked(asked, k)
    ensures Linked(asked + [r], k)
  {
    assert (asked + [r])[..k] == asked[..k];
  }

  lemma SeenSnoc(asked: seq<Request>, r: Request)
    ensures Seen(asked + [r]) == Seen(asked) + PageIds(Got(r)) && (asked + [r])[..|asked|] == asked
  {
    assert (asked + [r])[..|asked|] == asked;
  }

  lemma LastLinks(asked: seq<Request>, r: Request)
    requires asked != [] && NextFrom(asked, r.cursor)
    ensures Linked(asked + [r], |asked| - 1)
  {
    assert (asked + [r])[..|asked| - 1] == asked[..|asked| - 1];
  }

  lemma ChainedSnoc(asked: seq<Request>, r: Request)
    requires Chained(asked) && NextFrom(asked, r.cursor)
    ensures Chained(asked + [r])
  {
    forall k | 0 <= k < |asked|
      ensures Linked(asked + [r], k)
    {
      if k + 1 < |asked| {
        LinkStays(asked, r, k);
      } else {
        LastLinks(asked, r);
      }
    }
  }

  /** A page before the last did not fail. */
  lemma OnlyTheLastFails(asked: seq<Request>, k: nat)
    requires Chained(asked) && k < |asked| - 1
    ensures asked[k].page.Some?
  {
    assert Linked(asked, k);
  }

  lemma SecondIffFull(asked: seq<Request>)
    requires Complete(asked)
    ensures |asked| >= 2 <==> |Got(asked[0])| >= 500
  {
    var page := Got(asked[0]);
    assert asked[..0] == [];
    assert page != [] ==> page[0].id in PageIds(page);
    if |asked| >= 2 {
      assert Linked(asked, 0);
    }
  }

  lemma FirstPage(relay: Relay, genuine: Event -> bool, r: Request)
    requires Answered(relay, genuine, 0, r) && r.cursor.None? && relay(0, None).Some?
    ensures Got(r) == Genuine(relay(0, None).value, genuine)
  {
  }

  /** The first page leads to a second one if and only if at least 500 of its events are genuine. */
  lemma SecondPageIffGenuine(relay: Relay, genuine: Event -> bool, asked: seq<Request>)
    requires Asked(relay, genuine, asked) && relay(0, None).Some?
    ensures |asked| >= 2 <==> |Genuine(relay(0, None).value, genuine)| >= 500
  {
    FirstPage(relay, genuine, asked[0]);
    SecondIffFull(asked);
  }

  // ---- The loop ----

  /** One turn: fetch, drop forged events twice, merge, and decide whether to go on. */
  method TakePage(relay: Relay, genuine: Event -> bool, n: nat, until: Option<nat>, byId: map<nat, Event>)
    returns (merged: map<nat, Event>, progress: PageProgress, request: Request)
    ensures request == Request(until, Answer(relay, genuine, n, until))
    ensures Overlay(byId, Got(request), merged) && (Keyed(byId) ==> Keyed(merged))
    ensures progress.Next? <==> Fruitful(request, byId.Keys)
    ensures progress.Next? <==> |Got(request)| >= PAGE_SIZE && |merged| != |byId|
    ensures progress.Next? ==> OldestOf(Got(request), progress.until)
  {
    var answer := relay(n, until);
    if answer.None? { return byId, Finished, Request(until, None); }
    var page := Genuine(answer.value, genuine);
    var verified := Genuine(page, genuine);
    assert verified == page;
    merged, progress := MergeVerifiedPage(byId, |page|, verified);
    request := Request(until, Some(page));
    SubsetCount(byId.Keys, merged.Keys);
    assert merged.Keys == byId.Keys <==> PageIds(page) <= byId.Keys;
  }

  /** Where the loop stands before its next request. */
  ghost predicate UnderWay(asked: seq<Request>, next: Option<nat>, finished: bool) {
    if finished then Complete(asked) else |asked| <= MAX_PAGES && Chained(asked) && NextFrom(asked, next)
  }

  lemma TurnAsked(asked: seq<Request>, request: Request, progress: PageProgress)
    requires UnderWay(asked, request.cursor, false) && |asked| < MAX_PAGES
    requires progress.Next? <==> Fruitful(request, Seen(asked))
    requires progress.Next? ==> OldestOf(Got(request), progress.until)
    ensures UnderWay(asked + [request], if progress.Next? then Some(progress.until) else request.cursor,
                     progress.Finished?)
  {
    ChainedSnoc(asked, request);
    SeenSnoc(asked, request);
    if progress.Next? { NextIsFrom(asked, request, Some(progress.until)); }
  }

  lemma NextIsFrom(asked: seq<Request>, r: Request, cursor: Option<nat>)
    requires Fruitful(r, Seen(asked)) && cursor.Some? && OldestOf(Got(r), cursor.value)
    ensures NextFrom(asked + [r], cursor)
  {
    assert (asked + [r])[..|asked|] == asked;
  }

  ghost predicate Laid(asked: seq<Request>, hands: seq<map<nat, Event>>, k: nat)
    requires k < |asked| && k + 1 < |hands|
  {
    Overlay(hands[k], Got(asked[k]), hands[k + 1])
  }

  /** What was in hand before and after each request. */
  ghost predicate InHand(asked: seq<Request>, hands: seq<map<nat, Event>>) {
    && |hands| == |asked| + 1 && hands[0] == map[]
    && forall k :: 0 <= k < |asked| ==> Laid(asked, hands, k)
  }

  lemma InHandSnoc(asked: seq<Request>, hands: seq<map<nat, Event>>, r: Request, merged: map<nat, Event>)
    requires InHand(asked, hands) && Overlay(hands[|asked|], Got(r), merged)
    ensures InHand(asked + [r], hands + [merged])
  {
    forall k | 0 <= k < |asked| + 1
      ensures Laid(asked + [r], hands + [merged], k)
    {
      assert k < |asked| ==> Laid(asked, hands, k);
    }
  }

  /** The loop's variables against its requests so far. */
  ghost predicate InStep(asked: seq<Request>, hands: seq<map<nat, Event>>, next: Option<nat>, byId: map<nat, Event>,
                         finished: bool) {
    && Keyed(byId) && byId.Keys == Seen(asked)
    && InHand(asked, hands) && byId == hands[|asked|]
    && UnderWay(asked, next, finished)
  }

  lemma TurnInStep(asked: seq<Request>, hands: seq<map<nat, Event>>, byId: map<nat, Event>, merged: map<nat, Event>,
                   progress: PageProgress, request: Request)
    requires InStep(asked, hands, request.cursor, byId, false) && |asked| < MAX_PAGES
    requires Overlay(byId, Got(request), merged) && Keyed(merged)
    requires progress.Next? <==> Fruitful(request, byId.Keys)
    requires progress.Next? ==> OldestOf(Got(request), progress.until)
    ensures InStep(asked + [request], hands + [merged],
                   if progress.Next? then Some(progress.until) else request.cursor, merged, progress.Finished?)
  {
    TurnAsked(asked, request, progress);
    SeenSnoc(asked, request);
    InHandSnoc(asked, hands, request, merged);
  }

  /** The paging of `fetch_persona_catalog`. */
  method TakePages(relay: Relay, genuine: Event -> bool)
    returns (byId: map<nat, Event>, asked: seq<Request>, ghost hands: seq<map<nat, Event>>)
    ensures Keyed(byId) && Asked(relay, genuine, asked)
    ensures InHand(asked, hands) && byId == hands[|asked|]
  {
    byId, asked, hands := map[], [], [map[]];
    var next: Option<nat> := None;
    var finished := false;
    while |asked| < MAX_PAGES && !finished
      invariant InStep(asked, hands, next, byId, finished) && AllAnswered(relay, genuine, asked)
      decreases MAX_PAGES - |asked|, !finished
    {
      var merged, progress, request := TakePage(relay, genuine, |asked|, next, byId);
      TurnInStep(asked, hands, byId, merged, progress, request);
      AnsweredSnoc(relay, genuine, asked, request);
      byId, asked, hands := merged, asked + [request], hands + [merged];
      match progress
      case Finished => finished := true;
      case Next(t) => next := Some(t);
    }
  }

  // ---- Against an honest relay ----

  /** The request was answered with a page of the catalog. */
  ghost predicate Honest(catalog: map<nat, Event>, r: Request) {
    r.page.Some? && IsPage(catalog, r.cursor, r.page.value)
  }

  ghost predicate AllHonest(catalog: map<nat, Event>, asked: seq<Request>) {
    forall k {:trigger Honest(catalog, asked[k])} :: 0 <= k < |asked| ==> Honest(catalog, asked[k])
  }

  lemma HonestAnswer(relay: Relay, genuine: Event -> bool, catalog: map<nat, Event>, k: nat, r: Request)
    requires Serves(relay, catalog, genuine) && Answered(relay, genuine, k, r)
    ensures Honest(catalog, r)
  {
    var raw := relay(k, r.cursor).value;
    assert IsPage(catalog, r.cursor, raw);
    assert Genuine(raw, genuine) == raw;
  }

  lemma ServedHonestly(relay: Relay, genuine: Event -> bool, catalog: map<nat, Event>, asked: seq<Request>)
    requires Serves(relay, catalog, genuine) && AllAnswered(relay, genuine, asked)
    ensures AllHonest(catalog, asked)
  {
    forall k | 0 <= k < |asked|
      ensures Honest(catalog, asked[k])
    {
      HonestAnswer(relay, genuine, catalog, k, asked[k]);
    }
  }

  lemma {:induction false} HandsAreSeen(asked: seq<Request>, hands: seq<map<nat, Event>>, k: nat)
    requires InHand(asked, hands) && k <= |asked|
    ensures hands[k].Keys == Seen(asked[..k])
  {
    if k > 0 {
      HandsAreSeen(asked, hands, k - 1);
      assert Laid(asked, hands, k - 1);
      assert asked[..k][..k - 1] == asked[..k - 1];
    }
  }

  /** One turn: on to the oldest second of a fruitful page, or to an end. */
  lemma HonestTurn(catalog: map<nat, Event>, tied: nat, k: nat, r: Request, byId: map<nat, Event>,
                   merged: map<nat, Event>, progress: PageProgress)
    requires Honest(catalog, r) && LoopState(catalog, r.cursor, byId, k, tied) && k < MAX_PAGES
    requires Overlay(byId, Got(r), merged)
    requires progress.Next? <==> Fruitful(r, byId.Keys)
    requires progress.Next? ==> OldestOf(Got(r), progress.until)
    ensures if progress.Next? then LoopState(catalog, Some(progress.until), merged, k + 1, tied)
            else EndState(catalog, merged, tied)
  {
    SubsetCount(byId.Keys, merged.Keys);
    assert merged.Keys == byId.Keys <==> PageIds(Got(r)) <= byId.Keys;
    MergeOfPage(catalog, r.cursor, byId, Got(r), merged, progress);
    PageOutcome(catalog, r.cursor, byId, k, tied, Got(r), merged, progress);
  }

  lemma LoopBegins(catalog: map<nat, Event>, tied: nat)
    ensures LoopState(catalog, None, map[], 0, tied)
  {
  }

  lemma HonestStep(catalog: map<nat, Event>, tied: nat, asked: seq<Request>, hands: seq<map<nat, Event>>, k: nat,
                   progress: PageProgress)
    requires AllHonest(catalog, asked) && InHand(asked, hands) && k < |asked| <= MAX_PAGES
    requires LoopState(catalog, asked[k].cursor, hands[k], k, tied)
    requires progress.Next? <==> Fruitful(asked[k], Seen(asked[..k]))
    requires progress.Next? ==> OldestOf(Got(asked[k]), progress.until)
    ensures if progress.Next? then LoopState(catalog, Some(progress.until), hands[k + 1], k + 1, tied)
            else EndState(catalog, hands[k + 1], tied)
  {
    assert Honest(catalog, asked[k]) && Laid(asked, hands, k);
    HandsAreSeen(asked, hands, k);
    HonestTurn(catalog, tied, k, asked[k], hands[k], hands[k + 1], progress);
  }

  lemma LinkIsNext(asked: seq<Request>, k: nat) returns (t: nat)
    requires Chained(asked) && k + 1 < |asked|
    ensures asked[k + 1].cursor == Some(t) && Fruitful(asked[k], Seen(asked[..k])) && OldestOf(Got(asked[k]), t)
  {
    assert Linked(asked, k);
    t := asked[k + 1].cursor.value;
  }

  lemma {:induction false} HonestSoFar(catalog: map<nat, Event>, tied: nat, asked: seq<Request>,
                                       hands: seq<map<nat, Event>>, k: nat)
    requires AllHonest(catalog, asked) && Chained(asked) && InHand(asked, hands) && k < |asked| <= MAX_PAGES
    ensures LoopState(catalog, asked[k].cursor, hands[k], k, tied)
  {
    if k == 0 {
      LoopBegins(catalog, tied);
    } else {
      HonestSoFar(catalog, tied, asked, hands, k - 1);
      var t := LinkIsNext(asked, k - 1);
      HonestStep(catalog, tied, asked, hands, k - 1, Next(t));
    }
  }

  lemma HonestEnd(catalog: map<nat, Event>, tied: nat, asked: seq<Request>, hands: seq<map<nat, Event>>)
    requires AllHonest(catalog, asked) && Complete(asked) && InHand(asked, hands)
    ensures Collected(catalog, hands[|asked|], tied)
  {
    var last := |asked| - 1;
    HonestSoFar(catalog, tied, asked, hands, last);
    if Fruitful(asked[last], Seen(asked[..last])) {
      var t := OldestTime(Got(asked[last])).value;
      HonestStep(catalog, tied, asked, hands, last, Next(t));
      LoopEnds(catalog, Some(t), hands[|asked|], tied, false);
    } else {
      HonestStep(catalog, tied, asked, hands, last, Finished);
      LoopEnds(catalog, None, hands[|asked|], tied, true);
    }
  }

  /** What the loop collects; `catalog` and `tied` only describe the relay. */
  method CollectCatalog(relay: Relay, genuine: Event -> bool, ghost catalog: map<nat, Event>, ghost tied: nat)
    returns (byId: map<nat, Event>, asked: seq<Request>)
    ensures Keyed(byId) && Asked(relay, genuine, asked) && Holds(relay, genuine, asked, byId)
    ensures Serves(relay, catalog, genuine) ==> Collected(catalog, byId, tied)
  {
    ghost var hands;
    byId, asked, hands := TakePages(relay, genuine);
    LastHandHolds(relay, genuine, asked, hands);
    if Serves(relay, catalog, genuine) {
      ServedHonestly(relay, genuine, catalog, asked);
      HonestEnd(catalog, tied, asked, hands);
    }
  }

  /** `events` are the values of `byId`, each once. */
  ghost predicate Lists(events: seq<Event>, byId: map<nat, Event>) {
    DistinctIds(events) && forall e :: e in events <==> e.id in byId && byId[e.id] == e
  }

  /** `into_values()`: every event once, in whatever order the map yields. */
  method ValuesInSomeOrder(byId: map<nat, Event>) returns (events: seq<Event>)
    requires Keyed(byId)
    ensures Lists(events, byId)
  {
    events := [];
    var todo := byId.Keys;
    while todo != {}
      invariant todo <= byId.Keys && DistinctIds(events)
      invariant forall e :: e in events <==> e.id in byId && e.id !in todo && byId[e.id] == e
      decreases todo
    {
      var id :| id in todo;
      todo := todo - {id};
      events := events + [byId[id]];
    }
  }

  // ---- What was gathered ----

  /** A page the relay sent holds `e`, and `e` is genuine. */
  ghost predicate Arrived(relay: Relay, genuine: Event -> bool, asked: seq<Request>, e: Event) {
    genuine(e) && exists k :: 0 <= k < |asked| && SentOn(relay, k, asked[k], e)
  }

  predicate SentOn(relay: Relay, k: nat, r: Request, e: Event) {
    var raw := relay(k, r.cursor);
    raw.Some? && e in raw.value
  }

  /** Every id that arrived, once, with an event that arrived under it. */
  ghost predicate Gathered(relay: Relay, genuine: Event -> bool, asked: seq<Request>, events: seq<Event>) {
    && DistinctIds(events)
    && (forall e :: e in events ==> Arrived(relay, genuine, asked, e))
    && (forall e :: Arrived(relay, genuine, asked, e) ==> exists f :: f in events && f.id == e.id)
  }

  lemma GotIsSent(relay: Relay, genuine: Event -> bool, k: nat, r: Request, e: Event)
    requires Answered(relay, genuine, k, r)
    ensures e in Got(r) <==> genuine(e) && SentOn(relay, k, r, e)
  {
  }

  lemma OverlayOf(byId: map<nat, Event>, page: seq<Event>, merged: map<nat, Event>)
    requires Overlay(byId, page, merged)
    ensures forall id :: id in merged ==> merged[id] in page || (id in byId && merged[id] == byId[id])
    ensures forall e :: e in page ==> e.id in merged
    ensures forall id :: id in byId ==> id in merged
  {
  }

  /** The request that brought what is held under `id`. */
  lemma {:induction false} BroughtBy(asked: seq<Request>, hands: seq<map<nat, Event>>, k: nat, id: nat)
    returns (j: nat)
    requires InHand(asked, hands) && k <= |asked| && id in hands[k]
    ensures j < |asked| && hands[k][id] in Got(asked[j])
  {
    assert k > 0;
    assert Laid(asked, hands, k - 1);
    OverlayOf(hands[k - 1], Got(asked[k - 1]), hands[k]);
    if hands[k][id] in Got(asked[k - 1]) {
      j := k - 1;
    } else {
      j := BroughtBy(asked, hands, k - 1, id);
    }
  }

  lemma {:induction false} HandsGrow(asked: seq<Request>, hands: seq<map<nat, Event>>, j: nat, k: nat, id: nat)
    requires InHand(asked, hands) && j <= k <= |asked| && id in hands[j]
    ensures id in hands[k]
  {
    if j < k {
      HandsGrow(asked, hands, j, k - 1, id);
      assert Laid(asked, hands, k - 1);
      OverlayOf(hands[k - 1], Got(asked[k - 1]), hands[k]);
    }
  }

  lemma ArrivedInHand(asked: seq<Request>, hands: seq<map<nat, Event>>, k: nat, e: Event)
    requires InHand(asked, hands) && k < |asked| && e in Got(asked[k])
    ensures e.id in hands[|asked|]
  {
    assert Laid(asked, hands, k);
    OverlayOf(hands[k], Got(asked[k]), hands[k + 1]);
    HandsGrow(asked, hands, k + 1, |asked|, e.id);
  }

  /** The map holds what arrived. */
  ghost predicate Holds(relay: Relay, genuine: Event -> bool, asked: seq<Request>, byId: map<nat, Event>) {
    && (forall id :: id in byId ==> Arrived(relay, genuine, asked, byId[id]))
    && (forall e :: Arrived(relay, genuine, asked, e) ==> e.id in byId)
  }

  lemma LastHandHolds(relay: Relay, genuine: Event -> bool, asked: seq<Request>, hands: seq<map<nat, Event>>)
    requires AllAnswered(relay, genuine, asked) && InHand(asked, hands)
    ensures Holds(relay, genuine, asked, hands[|asked|])
  {
    forall id | id in hands[|asked|]
      ensures Arrived(relay, genuine, asked, hands[|asked|][id])
    {
      var k := BroughtBy(asked, hands, |asked|, id);
      assert Answered(relay, genuine, k, asked[k]);
      GotIsSent(relay, genuine, k, asked[k], hands[|asked|][id]);
    }
    forall e | Arrived(relay, genuine, asked, e)
      ensures e.id in hands[|asked|]
    {
      var k :| 0 <= k < |asked| && SentOn(relay, k, asked[k], e);
      assert Answered(relay, genuine, k, asked[k]);
      GotIsSent(relay, genuine, k, asked[k], e);
      ArrivedInHand(asked, hands, k, e);
    }
  }

  lemma ListedIsGathered(relay: Relay, genuine: Event -> bool, asked: seq<Request>, byId: map<nat, Event>,
                         events: seq<Event>)
    requires Keyed(byId) && Holds(relay, genuine, asked, byId) && Lists(events, byId)
    ensures Gathered(relay, genuine, asked, events)
  {
    forall e | Arrived(relay, genuine, asked, e)
      ensures exists f :: f in events && f.id == e.id
    {
      assert byId[e.id] in events;
    }
  }

  // ---- The command ----

  /**
   What else the command consults: the signing keys before and after, and whether they and the relay stayed the
   same.
   */
  datatype Scope = NoKeys | KeysLost | Changed | Same

  predicate Fails(relay: Relay, k: nat, r: Request) { relay(k, r.cursor).None? }

  predicate SomePageFailed(relay: Relay, asked: seq<Request>) {
    exists k :: 0 <= k < |asked| && Fails(relay, k, asked[k])
  }

  lemma FailsIffNoPage(relay: Relay, genuine: Event -> bool, k: nat, r: Request)
    requires Answered(relay, genuine, k, r)
    ensures Fails(relay, k, r) <==> r.page.None?
  {
  }

  lemma FailedIffLastFailed(relay: Relay, genuine: Event -> bool, asked: seq<Request>)
    requires Asked(relay, genuine, asked)
    ensures SomePageFailed(relay, asked) <==> asked[|asked| - 1].page.None?
  {
    forall k | 0 <= k < |asked|
      ensures Fails(relay, k, asked[k]) <==> asked[k].page.None?
      ensures k < |asked| - 1 ==> !Fails(relay, k, asked[k])
    {
      FailsIffNoPage(relay, genuine, k, asked[k]);
      if k < |asked| - 1 { OnlyTheLastFails(asked, k); }
    }
    var last := |asked| - 1;
    assert Fails(relay, last, asked[last]) <==> asked[last].page.None?;
  }

  /** Pages, then heads, then the check that the community is still the one the fetch started in. */
  method FetchPersonaCatalog<A(!new)>(relay: Relay, genuine: Event -> bool, parse: string -> Option<A>, scope: Scope,
                                      ghost catalog: map<nat, Event>, ghost tied: nat)
    returns (r: Result<seq<Publication<A>>, string>, asked: seq<Request>)
    ensures if scope.NoKeys? then asked == [] else Asked(relay, genuine, asked)
    // it fails exactly when a page it asked for failed, or the scope is not what it was
    ensures r.Err? <==> !scope.Same? || SomePageFailed(relay, asked)
    // what it returns are the shared, readable heads of what arrived
    ensures r.Ok? ==> exists events :: Gathered(relay, genuine, asked, events) && Publishes(events, parse, r.value)
    // against a relay whose catalog fits the paging bound: exactly those of that catalog
    ensures (Serves(relay, catalog, genuine) && TiesAtMost(catalog, tied) && |catalog| <= Reach(40, tied)
             && r.Ok?) ==>
              exists events :: Lists(events, catalog) && Publishes(events, parse, r.value)
  {
    if scope.NoKeys? { return Err("identity unavailable"), []; }
    var byId;
    byId, asked := CollectCatalog(relay, genuine, catalog, tied);
    FailedIffLastFailed(relay, genuine, asked);
    if asked[|asked| - 1].page.None? { return Err("relay request failed"), asked; }
    if !scope.Same? { return Err("persona catalog scope changed while fetching"), asked; }
    var events := ValuesInSomeOrder(byId);
    var publications := PublicationsFromVerifiedEvents(events, parse);
    r := Ok(publications);
    ListedIsGathered(relay, genuine, asked, byId, events);
    if Serves(relay, catalog, genuine) && TiesAtMost(catalog, tied) && |catalog| <= Reach(MAX_PAGES, tied) {
      assert byId == catalog;
    }
  }
}
