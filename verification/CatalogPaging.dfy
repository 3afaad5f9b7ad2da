/** Paging the persona catalog: what the cursor loop collects from a newest-first relay, and where it stops short. */
module CatalogPaging {
  import opened Options
  import opened CatalogHeads

  const PAGE_SIZE: nat := 500
  const MAX_PAGES: nat := 40

  datatype PageProgress = Finished | Next(until: nat)

  function PageIds(page: seq<Event>): set<nat> { set e | e in page :: e.id }

  // ---- The relay ----

  /** What the n-th request, with its cursor, brings back: events in the relay's order, or a failure. */
  type Relay = (nat, Option<nat>) -> Option<seq<Event>>

  /** What a filter with an inclusive `until` asks for. */
  function Eligible(catalog: map<nat, Event>, until: Option<nat>): set<nat> {
    set id | id in catalog && (until.None? || catalog[id].createdAt <= until.value)
  }

  function AtSecond(catalog: map<nat, Event>, t: nat): set<nat> {
    set id | id in catalog && catalog[id].createdAt == t
  }

  /** Not newer than anything on the page. */
  predicate Behind(catalog: map<nat, Event>, page: seq<Event>, id: nat) {
    id in catalog && forall e :: e in page ==> catalog[id].createdAt <= e.createdAt
  }

  /** NIP-01 `limit`: the newest events asked for, ties cut anywhere. */
  ghost predicate IsPage(catalog: map<nat, Event>, until: Option<nat>, page: seq<Event>) {
    && (forall e :: e in page ==> e.id in Eligible(catalog, until) && catalog[e.id] == e)
    && DistinctIds(page)
    && |page| == Min(PAGE_SIZE, |Eligible(catalog, until)|)
    && (forall id {:trigger Behind(catalog, page, id)} :: id in Eligible(catalog, until) && id !in PageIds(page) ==>
          Behind(catalog, page, id))
  }

  /** A relay that serves one catalog of genuine events, possibly cutting ties differently on each page. */
  ghost predicate Serves(relay: Relay, catalog: map<nat, Event>, genuine: Event -> bool) {
    && (forall id :: id in catalog ==> catalog[id].id == id && genuine(catalog[id]))
    && (forall n, until :: relay(n, until).Some? && IsPage(catalog, until, relay(n, until).value))
  }

  // ---- One page ----

  /** The transport, and then the catalog itself, drop forged events. */
  function Genuine(page: seq<Event>, genuine: Event -> bool): (r: seq<Event>)
    ensures forall e :: e in r <==> e in page && genuine(e)
    ensures |r| <= |page|
    ensures (forall e :: e in page ==> genuine(e)) ==> r == page
    ensures (exists e :: e in page && !genuine(e)) ==> |r| < |page|
  {
    if page == [] then []
    else
      assert page == [page[0]] + page[1..];
      (if genuine(page[0]) then [page[0]] else []) + Genuine(page[1..], genuine)
  }

  function OldestTime(events: seq<Event>): (r: Option<nat>)
    ensures r.None? <==> events == []
    ensures r.Some? ==> OldestOf(events, r.value)
  {
    if events == [] then None
    else
      assert events == [events[0]] + events[1..];
      match OldestTime(events[1..])
      case None => Some(events[0].createdAt)
      case Some(t) => Some(Min(t, events[0].createdAt))
  }

  /** `merged` is `byId` with the page written over it. */
  ghost predicate Overlay(byId: map<nat, Event>, page: seq<Event>, merged: map<nat, Event>) {
    && merged.Keys == byId.Keys + PageIds(page)
    && (forall id :: id in merged ==> if id in PageIds(page) then merged[id] in page && merged[id].id == id
                                      else merged[id] == byId[id])
  }

  ghost predicate Keyed(byId: map<nat, Event>) { forall id :: id in byId ==> byId[id].id == id }

  lemma OverlayOneMore(byId: map<nat, Event>, page: seq<Event>, merged: map<nat, Event>, e: Event)
    requires Overlay(byId, page, merged)
    ensures Overlay(byId, page + [e], merged[e.id := e])
  {
    assert PageIds(page + [e]) == PageIds(page) + {e.id};
  }

  lemma {:induction false} PageIdsCount(page: seq<Event>)
    requires DistinctIds(page)
    ensures |PageIds(page)| == |page|
  {
    if page != [] {
      var rest := page[..|page| - 1];
      PageIdsCount(rest);
      assert PageIds(page) == PageIds(rest) + {page[|page| - 1].id};
      assert page[|page| - 1].id !in PageIds(rest);
    }
  }

  lemma SubsetCount(a: set<nat>, b: set<nat>)
    requires a <= b
    ensures |a| <= |b| && (|a| == |b| ==> a == b)
  {
    assert b == a + (b - a);
  }

  lemma DifferenceCount(a: set<nat>, b: set<nat>)
    ensures |a - b| >= |a| - |b|
  {
    assert a == (a - b) + (a * b);
    SubsetCount(a * b, b);
  }

  /** A short page is everything that was asked for. */
  lemma ShortPageIsAll(catalog: map<nat, Event>, until: Option<nat>, page: seq<Event>)
    requires IsPage(catalog, until, page) && |page| < PAGE_SIZE
    ensures PageIds(page) == Eligible(catalog, until)
  {
    PageIdsCount(page);
    SubsetCount(PageIds(page), Eligible(catalog, until));
  }

  /** Everything newer than the cursor is in hand, nothing older is, and the cursor is the age of something in hand. */
  ghost predicate Swept(catalog: map<nat, Event>, until: Option<nat>, ids: set<nat>) {
    && (forall id :: id in ids ==> id in catalog)
    && (until.None? ==> ids == {})
    && (until.Some? ==>
          && (forall id :: id in catalog && catalog[id].createdAt > until.value ==> id in ids)
          && (forall id :: id in ids ==> catalog[id].createdAt >= until.value)
          && (exists id :: id in ids && catalog[id].createdAt == until.value))
  }

  ghost predicate OldestOf(page: seq<Event>, t: nat) {
    (exists e :: e in page && e.createdAt == t) && forall e :: e in page ==> e.createdAt >= t
  }

  lemma FullPageSweeps(catalog: map<nat, Event>, until: Option<nat>, ids: set<nat>, page: seq<Event>, oldest: nat)
    requires IsPage(catalog, until, page) && Swept(catalog, until, ids) && OldestOf(page, oldest)
    ensures Swept(catalog, Some(oldest), ids + PageIds(page))
  {
    var e :| e in page && e.createdAt == oldest;
    assert e.id in PageIds(page);
    forall id | id in catalog && catalog[id].createdAt > oldest ensures id in ids + PageIds(page) {
      assert id in ids || id in PageIds(page) || Behind(catalog, page, id);
    }
  }

  /** What a full page adds: all of it at first, later all but the events tied at the cursor. */
  lemma FullPageAdds(catalog: map<nat, Event>, until: Option<nat>, ids: set<nat>, page: seq<Event>)
    requires IsPage(catalog, until, page) && Swept(catalog, until, ids) && |page| == PAGE_SIZE
    ensures until.None? ==> |ids + PageIds(page)| == PAGE_SIZE
    ensures until.Some? ==> |ids + PageIds(page)| >= |ids| + PAGE_SIZE - |AtSecond(catalog, until.value)|
  {
    PageIdsCount(page);
    var p := PageIds(page);
    if until.None? {
      assert ids + p == p;
    } else {
      var older := p - AtSecond(catalog, until.value);
      DifferenceCount(p, AtSecond(catalog, until.value));
      assert forall id :: id in older ==> catalog[id].createdAt < until.value;
      assert ids !! older;
      SubsetCount(ids + older, ids + p);
    }
  }

  /** Unless the whole page is tied at the cursor, the cursor moves strictly back. */
  lemma CursorMovesBack(catalog: map<nat, Event>, until: nat, page: seq<Event>, oldest: nat)
    requires IsPage(catalog, Some(until), page) && |page| == PAGE_SIZE && OldestOf(page, oldest)
    requires |AtSecond(catalog, until)| < PAGE_SIZE
    ensures oldest < until
  {
    PageIdsCount(page);
    if oldest >= until {
      SubsetCount(PageIds(page), AtSecond(catalog, until));
    }
  }

  // ---- Evenly filled seconds ----

  /** `d` divides `n`. */
  predicate Multiple(n: nat, d: nat)
    requires d > 0
  {
    n == 0 || (n >= d && Multiple(n - d, d))
  }

  lemma {:induction false} MultipleIsProduct(q: nat, d: nat)
    requires d > 0
    ensures Multiple(q * d, d)
  {
    if q > 0 {
      MultipleIsProduct(q - 1, d);
      assert q * d - d == (q - 1) * d;
    }
  }

  predicate Fills(catalog: map<nat, Event>, id: nat, d: nat)
    requires id in catalog
  {
    |AtSecond(catalog, catalog[id].createdAt)| == d
  }

  /** Every second that holds events holds exactly `d`, and whole seconds make up a page. */
  ghost predicate EvenSeconds(catalog: map<nat, Event>, d: nat) {
    && 0 < d < PAGE_SIZE
    && Multiple(PAGE_SIZE, d)
    && forall id {:trigger Fills(catalog, id, d)} :: id in catalog ==> Fills(catalog, id, d)
  }

  lemma NoWall(catalog: map<nat, Event>, d: nat, t: nat)
    requires EvenSeconds(catalog, d)
    ensures |AtSecond(catalog, t)| <= d
  {
    if AtSecond(catalog, t) != {} {
      var id :| id in AtSecond(catalog, t);
      assert Fills(catalog, id, d);
    }
  }

  ghost predicate ClosedUnderSeconds(catalog: map<nat, Event>, s: set<nat>) {
    && (forall a :: a in s ==> a in catalog)
    && forall a, b :: a in s && b in catalog && catalog[a].createdAt == catalog[b].createdAt ==> b in s
  }

  lemma TakeOneSecond(catalog: map<nat, Event>, d: nat, s: set<nat>, a: nat)
    requires EvenSeconds(catalog, d) && ClosedUnderSeconds(catalog, s) && a in s
    ensures var second := AtSecond(catalog, catalog[a].createdAt);
            second <= s && |s - second| == |s| - d && ClosedUnderSeconds(catalog, s - second)
  {
    var second := AtSecond(catalog, catalog[a].createdAt);
    assert Fills(catalog, a, d);
    assert second <= s;
    assert s == second + (s - second);
  }

  lemma {:induction false} WholeSecondsCount(catalog: map<nat, Event>, d: nat, s: set<nat>)
    requires EvenSeconds(catalog, d) && ClosedUnderSeconds(catalog, s)
    ensures Multiple(|s|, d)
    decreases |s|
  {
    if s != {} {
      var a :| a in s;
      TakeOneSecond(catalog, d, s, a);
      WholeSecondsCount(catalog, d, s - AtSecond(catalog, catalog[a].createdAt));
    }
  }

  lemma {:induction false} LastPartIsWhole(n: nat, d: nat, r: nat)
    requires 1 <= r <= d && r <= n && Multiple(n, d) && Multiple(n - r, d)
    ensures r == d
    decreases n
  {
    if n != r {
      LastPartIsWhole(n - d, d, r);
    }
  }

  /** What a page holds: everything newer than its oldest second, and some of that second. */
  lemma PageParts(catalog: map<nat, Event>, until: Option<nat>, page: seq<Event>, oldest: nat)
    returns (newer: set<nat>, last: set<nat>)
    requires IsPage(catalog, until, page) && OldestOf(page, oldest)
    ensures ClosedUnderSeconds(catalog, newer) && {} < last <= AtSecond(catalog, oldest)
    ensures newer !! last && PageIds(page) == newer + last
  {
    newer := set id | id in Eligible(catalog, until) && catalog[id].createdAt > oldest;
    last := PageIds(page) * AtSecond(catalog, oldest);
    var e :| e in page && e.createdAt == oldest;
    assert e.id in last;
    forall id | id in newer
      ensures id in PageIds(page)
    {
      assert id in PageIds(page) || Behind(catalog, page, id);
    }
  }

  /** A full page then ends with a whole second. */
  lemma FullPageEndsWhole(catalog: map<nat, Event>, d: nat, until: Option<nat>, page: seq<Event>, oldest: nat)
    requires EvenSeconds(catalog, d)
    requires IsPage(catalog, until, page) && |page| == PAGE_SIZE && OldestOf(page, oldest)
    ensures AtSecond(catalog, oldest) <= PageIds(page)
  {
    PageIdsCount(page);
    var newer, last := PageParts(catalog, until, page, oldest);
    WholeSecondsCount(catalog, d, newer);
    NoWall(catalog, d, oldest);
    SubsetCount(last, AtSecond(catalog, oldest));
    assert |PageIds(page)| == |newer| + |last|;
    LastPartIsWhole(PAGE_SIZE, d, |last|);
  }

  /** A later full page then repeats exactly the second at the cursor. */
  lemma FullPageAddsTheRest(catalog: map<nat, Event>, d: nat, until: nat, ids: set<nat>, page: seq<Event>)
    requires EvenSeconds(catalog, d)
    requires IsPage(catalog, Some(until), page) && Swept(catalog, Some(until), ids) && |page| == PAGE_SIZE
    requires AtSecond(catalog, until) <= ids
    ensures |ids + PageIds(page)| == |ids| + PAGE_SIZE - d
  {
    PageIdsCount(page);
    var p, second := PageIds(page), AtSecond(catalog, until);
    var c :| c in ids && catalog[c].createdAt == until;
    assert Fills(catalog, c, d);
    assert second <= p by {
      if !(second <= p) {
        var id :| id in second && id !in p;
        assert Behind(catalog, page, id);
        assert p <= second;
        SubsetCount(p, second);
      }
    }
    assert ids * p == second;
    assert |ids + p| == |ids| + |p| - |ids * p|;
  }

  // ---- A second with a page of events in it ----

  /** Five hundred events in one second are a wall: no page reaches past them. */
  lemma WallHolds(catalog: map<nat, Event>, until: Option<nat>, page: seq<Event>, t: nat)
    requires IsPage(catalog, until, page) && (until.Some? ==> until.value >= t)
    requires |AtSecond(catalog, t)| >= PAGE_SIZE
    ensures |page| == PAGE_SIZE && forall e :: e in page ==> e.createdAt >= t
  {
    var wall := AtSecond(catalog, t);
    assert wall <= Eligible(catalog, until);
    SubsetCount(wall, Eligible(catalog, until));
    PageIdsCount(page);
    if wall <= PageIds(page) {
      SubsetCount(wall, PageIds(page));
      assert forall e :: e in page ==> e.id in wall;
    } else {
      var id :| id in wall && id !in PageIds(page);
      assert Behind(catalog, page, id);
    }
  }

  // ---- The loop ----

  /** Against one catalog: no second holds more than `tied` events, fewer than a page. */
  ghost predicate TiesAtMost(catalog: map<nat, Event>, tied: nat) {
    tied < PAGE_SIZE && forall t :: |AtSecond(catalog, t)| <= tied
  }

  /** `n` pages' worth: the first whole, each later one short of the `d` events it repeats. */
  function Reach(n: nat, d: nat): (r: nat)
    requires d <= PAGE_SIZE
  {
    if n == 0 then 0 else if n == 1 then PAGE_SIZE else Reach(n - 1, d) + (PAGE_SIZE - d)
  }

  lemma {:induction false} ReachIsClosed(n: nat, d: nat)
    requires d <= PAGE_SIZE && n > 0
    ensures Reach(n, d) == PAGE_SIZE + (n - 1) * (PAGE_SIZE - d)
  {
    if n > 1 { ReachIsClosed(n - 1, d); }
  }

  lemma {:induction false} ReachGrows(n: nat, m: nat, d: nat)
    requires n <= m && d <= PAGE_SIZE
    ensures Reach(n, d) <= Reach(m, d)
  {
    if n < m { ReachGrows(n, m - 1, d); }
  }

  ghost predicate LoopState(catalog: map<nat, Event>, until: Option<nat>, byId: map<nat, Event>, n: nat, tied: nat) {
    && Swept(catalog, until, byId.Keys)
    && (forall id :: id in byId ==> byId[id] == catalog[id])
    && (until.None? <==> n == 0)
    && (TiesAtMost(catalog, tied) && n > 0 ==> |byId| >= Reach(n, tied))
    && (EvenSeconds(catalog, tied) && n > 0 ==>
          |byId| == Reach(n, tied) && AtSecond(catalog, until.value) <= byId.Keys)
    && (forall t :: |AtSecond(catalog, t)| >= PAGE_SIZE && until.Some? ==> until.value >= t)
  }

  lemma FullPageAdvances(catalog: map<nat, Event>, until: Option<nat>, byId: map<nat, Event>, n: nat, tied: nat,
                         page: seq<Event>, merged: map<nat, Event>, oldest: nat)
    requires LoopState(catalog, until, byId, n, tied)
    requires IsPage(catalog, until, page) && |page| == PAGE_SIZE && OldestOf(page, oldest)
    requires merged.Keys == byId.Keys + PageIds(page) && forall id :: id in merged ==> merged[id] == catalog[id]
    ensures LoopState(catalog, Some(oldest), merged, n + 1, tied)
  {
    FullPageSweeps(catalog, until, byId.Keys, page, oldest);
    FullPageAdds(catalog, until, byId.Keys, page);
    if EvenSeconds(catalog, tied) {
      FullPageEndsWhole(catalog, tied, until, page, oldest);
      if until.Some? { FullPageAddsTheRest(catalog, tied, until.value, byId.Keys, page); }
    }
    forall t | |AtSecond(catalog, t)| >= PAGE_SIZE ensures oldest >= t {
      WallHolds(catalog, until, page, t);
    }
    if until.Some? {
      assert TiesAtMost(catalog, tied) ==> |AtSecond(catalog, until.value)| <= tied;
    }
  }

  /** How the loop can stop early: with the whole catalog, or at a wall. */
  ghost predicate EndState(catalog: map<nat, Event>, byId: map<nat, Event>, tied: nat) {
    && (forall id :: id in byId ==> id in catalog && byId[id] == catalog[id])
    && (byId.Keys == catalog.Keys || exists t :: |AtSecond(catalog, t)| >= PAGE_SIZE)
    && (forall t, id :: |AtSecond(catalog, t)| >= PAGE_SIZE && id in byId ==> byId[id].createdAt >= t)
    && (EvenSeconds(catalog, tied) ==> |byId| <= Reach(MAX_PAGES, tied))
  }

  ghost predicate MergedFrom(catalog: map<nat, Event>, byId: map<nat, Event>, page: seq<Event>,
                             merged: map<nat, Event>, progress: PageProgress) {
    && merged.Keys == byId.Keys + PageIds(page)
    && (forall id :: id in merged ==> id in catalog && merged[id] == catalog[id])
    && (progress.Next? <==> |page| >= PAGE_SIZE && |merged| != |byId|)
    && (progress.Next? ==> OldestOf(page, progress.until))
  }

  /** A later page repeats the second at the cursor. */
  lemma ShortPageRepeats(catalog: map<nat, Event>, until: nat, byId: set<nat>, d: nat, page: seq<Event>)
    requires EvenSeconds(catalog, d) && IsPage(catalog, Some(until), page) && |page| < PAGE_SIZE
    requires AtSecond(catalog, until) <= byId && |AtSecond(catalog, until)| == d
    ensures |byId + PageIds(page)| <= |byId| + |page| - d
  {
    PageIdsCount(page);
    ShortPageIsAll(catalog, Some(until), page);
    var p, second := PageIds(page), AtSecond(catalog, until);
    assert second <= p;
    assert p == second + (p - second);
    assert byId + p == byId + (p - second);
    UnionCount(byId, p - second);
  }

  lemma CursorSecondIsFull(catalog: map<nat, Event>, until: nat, byId: set<nat>, d: nat)
    requires EvenSeconds(catalog, d) && Swept(catalog, Some(until), byId)
    ensures |AtSecond(catalog, until)| == d
  {
    var c :| c in byId && catalog[c].createdAt == until;
    assert Fills(catalog, c, d);
  }

  /** The last, short page stays within the reach of one more. */
  lemma ShortPageFits(catalog: map<nat, Event>, until: Option<nat>, byId: set<nat>, n: nat, d: nat, page: seq<Event>)
    requires EvenSeconds(catalog, d) && Swept(catalog, until, byId) && (until.None? <==> n == 0)
    requires n > 0 ==> |byId| == Reach(n, d) && AtSecond(catalog, until.value) <= byId
    requires IsPage(catalog, until, page) && |page| < PAGE_SIZE
    ensures |byId + PageIds(page)| <= Reach(n + 1, d)
  {
    if n == 0 {
      PageIdsCount(page);
      assert byId + PageIds(page) == PageIds(page);
    } else {
      CursorSecondIsFull(catalog, until.value, byId, d);
      ShortPageRepeats(catalog, until.value, byId, d, page);
    }
  }

  lemma UnionCount(a: set<nat>, b: set<nat>)
    ensures |a + b| <= |a| + |b|
  {
    assert a + b == a + (b - a);
    SubsetCount(b - a, b);
  }

  lemma ShortPageWithin(catalog: map<nat, Event>, until: Option<nat>, byId: map<nat, Event>, n: nat, tied: nat,
                        page: seq<Event>, merged: map<nat, Event>, progress: PageProgress)
    requires LoopState(catalog, until, byId, n, tied) && n < MAX_PAGES && EvenSeconds(catalog, tied)
    requires IsPage(catalog, until, page) && MergedFrom(catalog, byId, page, merged, progress) && |page| < PAGE_SIZE
    ensures |merged| <= Reach(MAX_PAGES, tied)
  {
    ShortPageFits(catalog, until, byId.Keys, n, tied, page);
    ReachGrows(n + 1, MAX_PAGES, tied);
  }

  lemma ShortPageHasNoWall(catalog: map<nat, Event>, until: Option<nat>, page: seq<Event>, t: nat)
    requires IsPage(catalog, until, page) && |page| < PAGE_SIZE
    requires |AtSecond(catalog, t)| >= PAGE_SIZE && until.Some? ==> until.value >= t
    ensures |AtSecond(catalog, t)| < PAGE_SIZE
  {
    if |AtSecond(catalog, t)| >= PAGE_SIZE {
      WallHolds(catalog, until, page, t);
    }
  }

  lemma ShortPageEnds(catalog: map<nat, Event>, until: Option<nat>, byId: map<nat, Event>, n: nat, tied: nat,
                      page: seq<Event>, merged: map<nat, Event>, progress: PageProgress)
    requires LoopState(catalog, until, byId, n, tied) && n < MAX_PAGES
    requires IsPage(catalog, until, page) && MergedFrom(catalog, byId, page, merged, progress)
    requires |page| < PAGE_SIZE
    ensures EndState(catalog, merged, tied)
  {
    ShortPageIsAll(catalog, until, page);
    assert merged.Keys == catalog.Keys;
    forall t
      ensures |AtSecond(catalog, t)| < PAGE_SIZE
    {
      ShortPageHasNoWall(catalog, until, page, t);
    }
    if EvenSeconds(catalog, tied) { ShortPageWithin(catalog, until, byId, n, tied, page, merged, progress); }
  }

  /** A page of repeats: only a second holding a whole page of events can cause it. */
  lemma RepeatedPageEnds(catalog: map<nat, Event>, until: Option<nat>, byId: map<nat, Event>, n: nat, tied: nat,
                         page: seq<Event>, merged: map<nat, Event>, progress: PageProgress)
    requires LoopState(catalog, until, byId, n, tied)
    requires IsPage(catalog, until, page) && MergedFrom(catalog, byId, page, merged, progress)
    requires |page| == PAGE_SIZE && |merged| == |byId|
    ensures EndState(catalog, merged, tied)
  {
    FullPageAdds(catalog, until, byId.Keys, page);
    assert |AtSecond(catalog, until.value)| >= PAGE_SIZE;
    SubsetCount(byId.Keys, merged.Keys);
    if EvenSeconds(catalog, tied) { NoWall(catalog, tied, until.value); }
  }

  lemma PageOutcome(catalog: map<nat, Event>, until: Option<nat>, byId: map<nat, Event>, n: nat, tied: nat,
                    page: seq<Event>, merged: map<nat, Event>, progress: PageProgress)
    requires LoopState(catalog, until, byId, n, tied) && n < MAX_PAGES
    requires IsPage(catalog, until, page) && MergedFrom(catalog, byId, page, merged, progress)
    ensures progress.Next? ==> LoopState(catalog, Some(progress.until), merged, n + 1, tied)
    ensures progress.Finished? ==> EndState(catalog, merged, tied)
  {
    match progress
    case Next(t) => FullPageAdvances(catalog, until, byId, n, tied, page, merged, t);
    case Finished =>
      if |page| < PAGE_SIZE {
        ShortPageEnds(catalog, until, byId, n, tied, page, merged, progress);
      } else {
        RepeatedPageEnds(catalog, until, byId, n, tied, page, merged, progress);
      }
  }

  /** What is in hand when the loop ends. */
  ghost predicate Collected(catalog: map<nat, Event>, byId: map<nat, Event>, tied: nat) {
    // only the catalog's own events
    && (forall id :: id in byId ==> id in catalog && byId[id] == catalog[id])
    // everything, within the real bound
    && (TiesAtMost(catalog, tied) && |catalog| <= Reach(MAX_PAGES, tied) ==> byId == catalog)
    // and with evenly filled seconds exactly that much
    && (EvenSeconds(catalog, tied) ==> |byId| == Min(|catalog|, Reach(MAX_PAGES, tied)))
    // nothing older than a second that holds a whole page
    && (forall t, id :: |AtSecond(catalog, t)| >= PAGE_SIZE && id in byId ==> byId[id].createdAt >= t)
  }

  /** Where an honest relay leaves the loop. */
  ghost predicate LoopLeft(catalog: map<nat, Event>, until: Option<nat>, byId: map<nat, Event>, tied: nat,
                           finished: bool) {
    if finished then EndState(catalog, byId, tied) else LoopState(catalog, until, byId, MAX_PAGES, tied)
  }

  lemma LoopEnds(catalog: map<nat, Event>, until: Option<nat>, byId: map<nat, Event>, tied: nat, finished: bool)
    requires LoopLeft(catalog, until, byId, tied, finished)
    ensures Collected(catalog, byId, tied)
  {
    SubsetCount(byId.Keys, catalog.Keys);
    if finished && byId.Keys != catalog.Keys {
      var t :| |AtSecond(catalog, t)| >= PAGE_SIZE;
      if EvenSeconds(catalog, tied) { NoWall(catalog, tied, t); }
    }
  }
}
