/**
 When the socket may ask again. Over every run, a CLOSED embargoes its id: a terminal
 one until the id's departure is drained or an EOSE arrives, the k-th consecutive other
 one for min(2^(k-1), 30) seconds or the relay's hint if that is longer.
 */
module RelayDiscipline {
  import opened Options
  import opened RelayClosed
  import opened RelaySession
  import opened RelayProtocol
  import opened RelayCoverage

  /** Entries that lift the embargo on `id`: a new socket, an EOSE, a drained departure. */
  predicate Lifts(e: Entry, id: Id) {
    match e
    case Connected => true
    case Eose(i) => i == id
    case Drained(ids) => id in ids
    case _ => false
  }

  /** Entries that end a run of consecutive CLOSEDs; a delivered event does too. */
  predicate Resets(e: Entry, id: Id) { Lifts(e, id) || e == Healthy(id) }

  /** Nothing between positions `i` and `j` lifts the embargo on `id`. */
  ghost predicate Undisturbed(log: seq<Entry>, i: nat, j: nat, id: Id)
    requires j <= |log|
  {
    forall k :: i < k < j ==> !Lifts(log[k], id)
  }

  /** How many non-terminal CLOSEDs of `id` the log ends with, counting from its last reset. */
  function Streak(log: seq<Entry>, id: Id): nat {
    if log == [] then 0
    else
      var before, e := log[..|log| - 1], log[|log| - 1];
      if Resets(e, id) then 0
      else if e.Closed? && e.id == id && Classify(e.message) != Terminal then Streak(before, id) + 1
      else Streak(before, id)
  }

  /** The earliest instant at which the CLOSED at position `i` allows its id to be requested again. */
  function Until(log: seq<Entry>, i: nat): nat
    requires i < |log| && log[i].Closed?
  {
    log[i].at + Delay(log[i].message, Streak(log[..i], log[i].id))
  }

  /** The REQ at `j` respects the CLOSED at `i`. */
  predicate Respects(log: seq<Entry>, i: nat, j: nat)
    requires i < j < |log| && log[i].Closed? && log[j].Requested?
  {
    Classify(log[i].message) != Terminal && log[j].at >= Until(log, i)
  }

  ghost predicate Disciplined(log: seq<Entry>) {
    forall i, j :: (0 <= i < j < |log| && log[i].Closed? && log[j].Requested? && log[i].id == log[j].id
                    && Undisturbed(log, i, j, log[i].id)) ==> Respects(log, i, j)
  }

  // ---- What the retry table knows of the log ----

  /** The table still enforces the CLOSED at `i`, or its wait is over. */
  ghost predicate Enforced(log: seq<Entry>, retries: map<Id, ClosedRetry>, now: nat, i: nat)
    requires i < |log| && log[i].Closed?
  {
    var id, final := log[i].id, Classify(log[i].message) == Terminal;
    || (!final && now >= Until(log, i))
    || (id in retries && retries[id].terminal)
    || (!final && id in retries && retries[id].dueAt.Some? && retries[id].dueAt.value >= Until(log, i))
  }

  ghost predicate CountOk(log: seq<Entry>, retries: map<Id, ClosedRetry>, id: Id) {
    if id in retries then retries[id].attempts == Min(Streak(log, id), U32_MAX) else Streak(log, id) == 0
  }

  ghost predicate Tracks(log: seq<Entry>, retries: map<Id, ClosedRetry>, now: nat) {
    && (forall id :: CountOk(log, retries, id))
    && (forall i :: 0 <= i < |log| && log[i].Closed? && Undisturbed(log, i, |log|, log[i].id) ==>
          Enforced(log, retries, now, i))
  }

  /** Appending one entry: earlier positions keep their meaning. */
  lemma Appending(log: seq<Entry>, e: Entry, i: nat)
    requires i < |log|
    ensures (log + [e])[..i] == log[..i]
    ensures log[i].Closed? ==> Until(log + [e], i) == Until(log, i)
    ensures forall id :: Undisturbed(log + [e], i, |log| + 1, id) <==> Undisturbed(log, i, |log|, id) && !Lifts(e, id)
  {
    var l := log + [e];
    assert l[..i] == log[..i];
    forall id ensures Undisturbed(l, i, |log| + 1, id) <==> Undisturbed(log, i, |log|, id) && !Lifts(e, id) {
      if Undisturbed(l, i, |log| + 1, id) {
        assert forall k :: i < k < |log| ==> l[k] == log[k];
        assert l[|log|] == e;
      }
    }
  }

  lemma StreakSnoc(log: seq<Entry>, e: Entry, id: Id)
    ensures Streak(log + [e], id)
            == if Resets(e, id) then 0
               else if e.Closed? && e.id == id && Classify(e.message) != Terminal then Streak(log, id) + 1
               else Streak(log, id)
  {
    assert (log + [e])[..|log|] == log;
  }

  lemma DisciplinedSnoc(log: seq<Entry>, e: Entry)
    requires Disciplined(log)
    requires e.Requested? ==>
               forall i :: (0 <= i < |log| && log[i].Closed? && log[i].id == e.id && Undisturbed(log, i, |log|, e.id))
                           ==> Classify(log[i].message) != Terminal && e.at >= Until(log, i)
    ensures Disciplined(log + [e])
  {
    var l := log + [e];
    forall i, j | 0 <= i < j < |l| && l[i].Closed? && l[j].Requested? && l[i].id == l[j].id
                  && Undisturbed(l, i, j, l[i].id)
      ensures Respects(l, i, j)
    {
      Appending(log, e, i);
      if j < |log| {
        assert Undisturbed(log, i, j, log[i].id) by {
          assert forall k :: i < k < j ==> l[k] == log[k];
        }
      } else {
        assert Undisturbed(log, i, |log|, e.id) by {
          assert forall k :: i < k < |log| ==> l[k] == log[k];
        }
      }
    }
  }

  /** An entry that lifts exactly the embargoes on `ids`, while exactly `ids` leave the table. */
  lemma TracksReset(log: seq<Entry>, retries: map<Id, ClosedRetry>, now: nat, e: Entry, ids: set<Id>)
    requires Tracks(log, retries, now) && !e.Closed? && !e.Healthy?
    requires forall id :: Lifts(e, id) <==> id in ids
    ensures Tracks(log + [e], retries - ids, now)
  {
    var l, r := log + [e], retries - ids;
    forall id ensures CountOk(l, r, id) {
      StreakSnoc(log, e, id);
      assert CountOk(log, retries, id);
    }
    forall i | 0 <= i < |l| && l[i].Closed? && Undisturbed(l, i, |l|, l[i].id) ensures Enforced(l, r, now, i) {
      Appending(log, e, i);
      assert Enforced(log, retries, now, i);
    }
  }

  lemma TracksConnected(log: seq<Entry>, now: nat)
    ensures Tracks(log + [Connected], map[], now)
  {
    var l := log + [Connected];
    forall id ensures CountOk(l, map[], id) {
      StreakSnoc(log, Connected, id);
    }
    forall i | 0 <= i < |l| && l[i].Closed? ensures !Undisturbed(l, i, |l|, l[i].id) {
      assert Lifts(l[|log|], l[i].id);
    }
  }

  /** Delivery comes only for an open id, whose waits are over. */
  lemma TracksHealthy(log: seq<Entry>, retries: map<Id, ClosedRetry>, now: nat, id: Id)
    requires Tracks(log, retries, now) && !BlockedId(retries, id, now)
    ensures Tracks(log + [Healthy(id)], retries - {id}, now)
  {
    var e := Healthy(id);
    var l, r := log + [e], retries - {id};
    forall x ensures CountOk(l, r, x) {
      StreakSnoc(log, e, x);
      assert CountOk(log, retries, x);
    }
    forall i | 0 <= i < |l| && l[i].Closed? && Undisturbed(l, i, |l|, l[i].id) ensures Enforced(l, r, now, i) {
      Appending(log, e, i);
      assert Enforced(log, retries, now, i);
    }
  }

  /** Saturating the attempt counter never shortens a delay. */
  lemma DelaySaturates(message: string, n: nat)
    ensures Delay(message, Min(n, U32_MAX)) == Delay(message, n)
  {
    BackoffIsCappedPowerOfTwo(n);
    BackoffIsCappedPowerOfTwo(Min(n, U32_MAX));
    if n > U32_MAX {
      assert Pow2(5) == 32;
      Pow2Grows(5, n);
      Pow2Grows(5, U32_MAX);
    }
  }

  lemma TracksClosed(log: seq<Entry>, retries: map<Id, ClosedRetry>, now: nat, id: Id, message: string)
    requires Tracks(log, retries, now) && !BlockedId(retries, id, now)
    ensures var entry := if id in retries then retries[id] else FRESH;
            Tracks(log + [Closed(id, message, now)], retries[id := entry.Schedule(message, now)], now)
  {
    var e := Closed(id, message, now);
    var entry := if id in retries then retries[id] else FRESH;
    var l, r := log + [e], retries[id := entry.Schedule(message, now)];
    forall x ensures CountOk(l, r, x) {
      StreakSnoc(log, e, x);
      assert CountOk(log, retries, x);
    }
    assert CountOk(log, retries, id);
    DelaySaturates(message, Streak(log, id));
    forall i | 0 <= i < |l| && l[i].Closed? && Undisturbed(l, i, |l|, l[i].id) ensures Enforced(l, r, now, i) {
      if i < |log| {
        Appending(log, e, i);
        assert Enforced(log, retries, now, i);
      } else {
        assert l[..i] == log;
      }
    }
  }

  lemma TracksRequested(log: seq<Entry>, retries: map<Id, ClosedRetry>, now: nat, id: Id)
    requires Tracks(log, retries, now) && Disciplined(log) && !BlockedId(retries, id, now)
    ensures Tracks(log + [Requested(id, now)], retries, now)
    ensures Disciplined(log + [Requested(id, now)])
  {
    var e := Requested(id, now);
    assert retries - {} == retries;
    TracksReset(log, retries, now, e, {});
    forall i | 0 <= i < |log| && log[i].Closed? && log[i].id == id && Undisturbed(log, i, |log|, id)
      ensures Classify(log[i].message) != Terminal && now >= Until(log, i)
    {
      assert Enforced(log, retries, now, i);
    }
    DisciplinedSnoc(log, e);
  }

  lemma TracksElapsed(log: seq<Entry>, retries: map<Id, ClosedRetry>, now: nat)
    requires Tracks(log, retries, now)
    ensures Tracks(log, Elapsed(retries, now), now)
  {
    var r := Elapsed(retries, now);
    forall id ensures CountOk(log, r, id) {
      assert CountOk(log, retries, id);
    }
    forall i | 0 <= i < |log| && log[i].Closed? && Undisturbed(log, i, |log|, log[i].id)
      ensures Enforced(log, r, now, i)
    {
      assert Enforced(log, retries, now, i);
    }
  }

  // ---- Kept by every action ----

  ghost predicate DisciplineInv(s: State) {
    Disciplined(s.log) && (!s.pc.Down? ==> Tracks(s.log, s.retries, s.now))
  }

  /** A departure is noted; nothing else about the socket changes. */
  lemma NoteKeeps(s: State, ids: set<Id>)
    requires DisciplineInv(s)
    ensures DisciplineInv(s.(log := s.log + [LeftDesired(ids)]))
  {
    DisciplinedSnoc(s.log, LeftDesired(ids));
    if !s.pc.Down? {
      assert s.retries - {} == s.retries;
      TracksReset(s.log, s.retries, s.now, LeftDesired(ids), {});
    }
  }

  lemma WriterKeepsDiscipline(s: State, w: WriterStep)
    requires DisciplineInv(s) && WriterMay(s, w)
    ensures DisciplineInv(WriterNext(s, w))
  {
    if w.SetSubscriptions? { NoteKeeps(s, Departed(s.desired, w.subscriptions)); }
  }

  lemma FetchKeepsDiscipline(s: State, f: FetchStep)
    requires DisciplineInv(s) && FetchMay(s, f)
    ensures DisciplineInv(FetchNext(s, f))
  {
    if f.Retires? { NoteKeeps(s, {f.id}); }
  }

  lemma PassKeepsDiscipline(s: State, p: PassStep)
    requires DisciplineInv(s) && Sound(s) && PassMay(s, p)
    ensures DisciplineInv(PassNext(s, p))
  {
    match p
    case Connect =>
      DisciplinedSnoc(s.log, Connected);
      TracksConnected(s.log, s.now);
    case Snapshot =>
      DisciplinedSnoc(s.log, Drained(s.removed));
      TracksReset(s.log, s.retries, s.now, Drained(s.removed), s.removed);
    case RequestSent => TracksRequested(s.log, s.retries, s.now, s.pc.rest[0].id);
    case TimerFires => TracksElapsed(s.log, s.retries, s.now);
    case _ =>
  }

  lemma FrameKeepsDiscipline(s: State, m: FrameStep)
    requires DisciplineInv(s) && Sound(s) && FrameMay(s, m)
    ensures DisciplineInv(FrameNext(s, m))
  {
    match m
    case EventForArchive(id) =>
      DisciplinedSnoc(s.log, Healthy(id));
      TracksHealthy(s.log, s.retries, s.now, id);
    case EoseForSubscription(id) =>
      DisciplinedSnoc(s.log, Eose(id));
      TracksReset(s.log, s.retries, s.now, Eose(id), {id});
    case ClosedForSubscription(id, message) =>
      DisciplinedSnoc(s.log, Closed(id, message, s.now));
      TracksClosed(s.log, s.retries, s.now, id, message);
    case Settle => NoteKeeps(s, {s.pc.id});
    case _ =>
  }

  lemma DisciplineKept(s: State, a: Action)
    requires DisciplineInv(s) && Sound(s) && Enabled(s, a)
    ensures DisciplineInv(Next(s, a))
  {
    match a
    case Tick(_) =>
    case ByWriter(w) => WriterKeepsDiscipline(s, w);
    case ByFetch(f) => FetchKeepsDiscipline(s, f);
    case ByPass(p) => PassKeepsDiscipline(s, p);
    case ByFrame(m) => FrameKeepsDiscipline(s, m);
  }

  lemma {:induction false} EveryRunKeepsDiscipline(states: seq<State>, actions: seq<Action>, n: nat)
    requires Run(states, actions) && n < |states|
    ensures DisciplineInv(states[n])
  {
    if n > 0 {
      EveryRunKeepsDiscipline(states, actions, n - 1);
      EveryRunKeepsInv(states, actions, n - 1);
      DisciplineKept(states[n - 1], actions[n - 1]);
    }
  }

  /**
   Timed REQ discipline, over every run. Between a CLOSED of a persistent subscription and
   any later REQ for its id, with neither an EOSE for it, a drain of its departure nor a new
   socket in between, the CLOSED was not terminal and the REQ waited at least
   min(2^(k-1), 30) seconds when it was the k-th in a row, and, when rate-limited, at least the hint
   or, without one, ten seconds.
   */
  lemma RequestsWaitTheirTurn(states: seq<State>, actions: seq<Action>, n: nat, i: nat, j: nat)
    requires Run(states, actions) && n < |states|
    requires var log := states[n].log;
             && i < j < |log| && log[i].Closed? && log[j].Requested? && log[i].id == log[j].id
             && Undisturbed(log, i, j, log[i].id)
    ensures var log := states[n].log;
            var k := Streak(log[..i], log[i].id) + 1;
            && Classify(log[i].message) != Terminal
            && log[j].at >= log[i].at + SECOND * Min(Pow2(k - 1), RETRY_MAX_SECONDS)
            && (Classify(log[i].message) == RateLimited ==>
                  log[j].at >= log[i].at + SECOND * (match RetryInSeconds(log[i].message)
                                                     case Some(hint) => hint
                                                     case None => RATE_LIMIT_DEFAULT_SECONDS))
            && log[j].at >= log[i].at + Delay(log[i].message, k - 1)
  {
    EveryRunKeepsDiscipline(states, actions, n);
    var log := states[n].log;
    assert Respects(log, i, j);
    BackoffIsCappedPowerOfTwo(Streak(log[..i], log[i].id));
  }

  // ---- A drain always answers a departure ----

  ghost predicate DepartureSince(log: seq<Entry>, k: nat, j: nat, id: Id)
    requires j <= |log|
  {
    && k < j && log[k].LeftDesired? && id in log[k].ids
    && forall m :: k < m < j ==> !log[m].Drained?
  }

  ghost predicate HasDeparture(log: seq<Entry>, j: nat, id: Id)
    requires j <= |log|
  {
    exists k :: DepartureSince(log, k, j, id)
  }

  /** Every id a drain names left the desired set after the drain before it. */
  ghost predicate DrainsAnswer(log: seq<Entry>) {
    forall j, id :: 0 <= j < |log| && log[j].Drained? && id in log[j].ids ==>
      HasDeparture(log, j, id)
  }

  ghost predicate RemovedAnswers(s: State) {
    && DrainsAnswer(s.log)
    && forall id :: id in s.removed ==> HasDeparture(s.log, |s.log|, id)
  }

  lemma DepartureStays(log: seq<Entry>, e: Entry, j: nat, id: Id)
    requires j <= |log| && HasDeparture(log, j, id)
    ensures HasDeparture(log + [e], j, id)
    ensures j == |log| && !e.Drained? ==> HasDeparture(log + [e], j + 1, id)
  {
    var k :| DepartureSince(log, k, j, id);
    assert DepartureSince(log + [e], k, j, id);
    if j == |log| && !e.Drained? {
      assert DepartureSince(log + [e], k, j + 1, id);
    }
  }

  lemma DrainsAnswerSnoc(log: seq<Entry>, e: Entry)
    requires DrainsAnswer(log)
    requires e.Drained? ==> forall id :: id in e.ids ==> HasDeparture(log, |log|, id)
    ensures DrainsAnswer(log + [e])
  {
    var l := log + [e];
    forall j, id | 0 <= j < |l| && l[j].Drained? && id in l[j].ids ensures HasDeparture(l, j, id) {
      DepartureStays(log, e, j, id);
    }
  }

  /** Appending `e` while the record gains exactly what `e` says left. */
  lemma RecordingAnswers(log: seq<Entry>, removed: set<Id>, e: Entry, gone: set<Id>)
    requires DrainsAnswer(log) && !e.Drained? && (gone != {} ==> e == LeftDesired(gone))
    requires forall id :: id in removed ==> HasDeparture(log, |log|, id)
    ensures DrainsAnswer(log + [e])
    ensures forall id :: id in removed + gone ==> HasDeparture(log + [e], |log| + 1, id)
  {
    DrainsAnswerSnoc(log, e);
    forall id | id in removed + gone ensures HasDeparture(log + [e], |log| + 1, id) {
      if id in removed {
        DepartureStays(log, e, |log|, id);
      } else {
        assert DepartureSince(log + [e], |log|, |log| + 1, id);
      }
    }
  }

  lemma NotingAnswers(s: State, e: Entry)
    requires RemovedAnswers(s) && !e.Drained?
    ensures RemovedAnswers(s.(log := s.log + [e]))
  {
    RecordingAnswers(s.log, s.removed, e, {});
    assert s.removed + {} == s.removed;
  }

  lemma WriterAnswers(s: State, w: WriterStep)
    requires RemovedAnswers(s) && WriterMay(s, w)
    ensures RemovedAnswers(WriterNext(s, w))
  {
    if w.SetSubscriptions? {
      var gone := Departed(s.desired, w.subscriptions);
      RecordingAnswers(s.log, s.removed, LeftDesired(gone), gone);
    }
  }

  lemma FetchAnswers(s: State, f: FetchStep)
    requires RemovedAnswers(s) && FetchMay(s, f)
    ensures RemovedAnswers(FetchNext(s, f))
  {
    if f.Retires? { RecordingAnswers(s.log, s.removed, LeftDesired({f.id}), {f.id}); }
  }

  lemma PassAnswers(s: State, p: PassStep)
    requires RemovedAnswers(s) && PassMay(s, p)
    ensures RemovedAnswers(PassNext(s, p))
  {
    match p
    case Connect => NotingAnswers(s, Connected);
    case Snapshot => DrainsAnswerSnoc(s.log, Drained(s.removed));
    case RequestSent => NotingAnswers(s, Requested(s.pc.rest[0].id, s.now));
    case _ =>
  }

  lemma FrameAnswers(s: State, m: FrameStep)
    requires RemovedAnswers(s) && FrameMay(s, m)
    ensures RemovedAnswers(FrameNext(s, m))
  {
    match m
    case EventForArchive(id) => NotingAnswers(s, Healthy(id));
    case EoseForSubscription(id) => NotingAnswers(s, Eose(id));
    case ClosedForSubscription(id, message) => NotingAnswers(s, Closed(id, message, s.now));
    case Settle => RecordingAnswers(s.log, s.removed, LeftDesired({s.pc.id}), {s.pc.id});
    case _ =>
  }

  lemma AnswersKept(s: State, a: Action)
    requires RemovedAnswers(s) && Enabled(s, a)
    ensures RemovedAnswers(Next(s, a))
  {
    match a
    case Tick(_) =>
    case ByWriter(w) => WriterAnswers(s, w);
    case ByFetch(f) => FetchAnswers(s, f);
    case ByPass(p) => PassAnswers(s, p);
    case ByFrame(m) => FrameAnswers(s, m);
  }

  /** Over every run: a drain lifts an embargo only for an id that really left since the previous drain. */
  lemma {:induction false} DrainsAnswerDepartures(states: seq<State>, actions: seq<Action>, n: nat)
    requires Run(states, actions) && n < |states|
    ensures RemovedAnswers(states[n])
  {
    if n > 0 {
      DrainsAnswerDepartures(states, actions, n - 1);
      AnswersKept(states[n - 1], actions[n - 1]);
    }
  }
}
