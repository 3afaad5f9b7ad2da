/**
 The boot reconcile of persona and team records into the retained-event table: it lands, it converges, it stays
 quiet.
 */
module EventSync {
  import opened Options
  import opened EventTable

  function Write(rows: Rows, author: Author, record: Record): nat {
    if record.builtin || Settled(rows, author, record) then 0 else 1
  }

  function Writes(rows: Rows, author: Author, turns: seq<Turn>): nat {
    if turns == [] then 0
    else
      var before := turns[..|turns| - 1];
      Writes(rows, author, before) + Write(ReconcileAll(rows, author, before), author, turns[|turns| - 1].record)
  }

  predicate Breaks(rows: Rows, author: Author, turn: Turn) {
    && !turn.record.builtin
    && (turn.fault.BuildFails? || (turn.fault.StoreFails? && !Settled(rows, author, turn.record)))
  }

  predicate Unbroken(rows: Rows, author: Author, turns: seq<Turn>) {
    turns == [] ||
    (var before := turns[..|turns| - 1];
     Unbroken(rows, author, before) && !Breaks(ReconcileAll(rows, author, before), author, turns[|turns| - 1]))
  }

  class RetentionStore {
    var rows: Rows

    constructor (rows: Rows)
      ensures this.rows == rows
    {
      this.rows := rows;
    }

    method RetainEvent(key: Coordinate, row: Row)
      modifies this
      ensures rows == Retain(old(rows), key, row)
    {
      if key !in rows || row.createdAt >= rows[key].createdAt {
        rows := rows[key := row];
      }
    }

    /** One record: how many rows it republished, unless its event could not be built or kept. */
    method ReconcileRecord(author: Author, turn: Turn) returns (r: Option<nat>)
      modifies this
      ensures r.None? <==> Breaks(old(rows), author, turn)
      ensures r.None? ==> rows == old(rows)
      ensures r.Some? ==> rows == Reconcile(old(rows), author, turn) && r.value == Write(old(rows), author, turn.record)
    {
      var Turn(record, now, fault) := turn;
      if record.builtin { return Some(0); }
      var key := CoordinateOf(author, record);
      var existing := Existing(rows, key);
      if fault.BuildFails? { return None; }
      if existing.Some? && existing.value.content == record.content { return Some(0); }
      if fault.StoreFails? { return None; }
      RetainEvent(key, Rebuilt(existing, record, now));
      r := Some(1);
    }

    /** The loop: the number of republished records, or the position of the record whose event could not be kept. */
    method Migrate(author: Author, turns: seq<Turn>) returns (r: Result<nat, nat>)
      modifies this
      ensures r.Ok? ==>
                && rows == ReconcileAll(old(rows), author, turns)
                && r.value == Writes(old(rows), author, turns)
                && Unbroken(old(rows), author, turns)
                && forall key :: Existing(rows, key) == RowAfterAll(Existing(old(rows), key), author, turns, key)
      ensures r.Err? ==>
                && r.error < |turns|
                && rows == ReconcileAll(old(rows), author, turns[..r.error])
                && Unbroken(old(rows), author, turns[..r.error])
                && Breaks(rows, author, turns[r.error])
    {
      var migrated := 0;
      for i := 0 to |turns|
        invariant rows == ReconcileAll(old(rows), author, turns[..i])
        invariant migrated == Writes(old(rows), author, turns[..i])
        invariant Unbroken(old(rows), author, turns[..i])
      {
        assert turns[..i + 1][..i] == turns[..i];
        var written := ReconcileRecord(author, turns[i]);
        if written.None? { return Err(i); }
        migrated := migrated + written.value;
      }
      assert turns[..|turns|] == turns;
      forall key {
        RunLeavesRow(old(rows), author, turns, key);
      }
      r := Ok(migrated);
    }
  }

  // ---- What a run leaves ----

  predicate Targets(author: Author, turn: Turn, key: Coordinate) {
    !turn.record.builtin && CoordinateOf(author, turn.record) == key
  }

  /** The content the records ask for at a coordinate: the last one to name it. */
  function Asked(author: Author, turns: seq<Turn>, key: Coordinate): Option<Content> {
    if turns == [] then None
    else if Targets(author, turns[|turns| - 1], key) then Some(turns[|turns| - 1].record.content)
    else Asked(author, turns[..|turns| - 1], key)
  }

  /** Content lands despite a future-dated head, and a coordinate no record names keeps its row. */
  lemma {:induction false} RecordsLand(rows: Rows, author: Author, turns: seq<Turn>, key: Coordinate)
    ensures var out, asked := ReconcileAll(rows, author, turns), Asked(author, turns, key);
            if asked.Some? then key in out && out[key].content == asked.value
            else Existing(out, key) == Existing(rows, key)
  {
    if turns != [] {
      RecordsLand(rows, author, turns[..|turns| - 1], key);
    }
  }

  /**
   A row is either untouched, or superseded by a later-dated one that waits to be published and stays as shared
   as it was.
   */
  ghost predicate Supersedes(new': Option<Row>, prior: Option<Row>, key: Coordinate) {
    || new' == prior
    || (&& new'.Some?
        && new'.value.pending
        && (prior.Some? ==> new'.value.createdAt > prior.value.createdAt)
        && new'.value.shared == (key.kind.PersonaKind? && prior.Some? && prior.value.shared))
  }

  lemma {:induction false} RowsSupersede(rows: Rows, author: Author, turns: seq<Turn>, key: Coordinate)
    ensures Supersedes(Existing(ReconcileAll(rows, author, turns), key), Existing(rows, key), key)
  {
    if turns != [] {
      RowsSupersede(rows, author, turns[..|turns| - 1], key);
    }
  }

  /** Records that share a coordinate share their content. */
  ghost predicate Agree(author: Author, turns: seq<Turn>) {
    forall i, key :: 0 <= i < |turns| && Targets(author, turns[i], key) ==>
      Asked(author, turns, key) == Some(turns[i].record.content)
  }

  lemma {:induction false} SettledRunIsSilent(rows: Rows, author: Author, turns: seq<Turn>)
    requires forall i :: 0 <= i < |turns| && !turns[i].record.builtin ==> Settled(rows, author, turns[i].record)
    ensures Writes(rows, author, turns) == 0 && ReconcileAll(rows, author, turns) == rows
  {
    if turns != [] {
      SettledRunIsSilent(rows, author, turns[..|turns| - 1]);
    }
  }

  lemma {:induction false} SilentRunWasSettled(rows: Rows, author: Author, turns: seq<Turn>, i: nat)
    requires Writes(rows, author, turns) == 0 && i < |turns| && !turns[i].record.builtin
    ensures ReconcileAll(rows, author, turns) == rows && Settled(rows, author, turns[i].record)
  {
    var before := turns[..|turns| - 1];
    if before == [] {
    } else if i < |before| {
      SilentRunWasSettled(rows, author, before, i);
    } else {
      SilentPrefix(rows, author, before);
    }
  }

  lemma {:induction false} SilentPrefix(rows: Rows, author: Author, turns: seq<Turn>)
    requires Writes(rows, author, turns) == 0
    ensures ReconcileAll(rows, author, turns) == rows
  {
    if turns != [] {
      SilentPrefix(rows, author, turns[..|turns| - 1]);
    }
  }

  /** The same records, met again at any later clock. */
  predicate SameRecords(a: seq<Turn>, b: seq<Turn>) {
    |a| == |b| && forall i :: 0 <= i < |a| ==> a[i].record == b[i].record
  }

  lemma {:induction false} AskedIgnoresClock(author: Author, a: seq<Turn>, b: seq<Turn>, key: Coordinate)
    requires SameRecords(a, b)
    ensures Asked(author, a, key) == Asked(author, b, key)
  {
    if a != [] {
      AskedIgnoresClock(author, a[..|a| - 1], b[..|b| - 1], key);
    }
  }

  lemma {:induction false} TargetIsAsked(author: Author, turns: seq<Turn>, i: nat, key: Coordinate)
    requires i < |turns| && Targets(author, turns[i], key)
    ensures Asked(author, turns, key).Some?
  {
    if !Targets(author, turns[|turns| - 1], key) {
      TargetIsAsked(author, turns[..|turns| - 1], i, key);
    }
  }

  /**
   The second boot is silent, whatever the first one found, exactly when no two records claim one
   coordinate with different contents; such a pair is republished on every boot.
   */
  lemma SecondRunSilentIffAgree(rows: Rows, author: Author, first: seq<Turn>, second: seq<Turn>)
    requires SameRecords(first, second)
    ensures var out := ReconcileAll(rows, author, first);
            && (Writes(out, author, second) == 0 <==> Agree(author, first))
            && (Agree(author, first) ==> ReconcileAll(out, author, second) == out)
  {
    var out := ReconcileAll(rows, author, first);
    if Agree(author, first) {
      forall i | 0 <= i < |second| && !second[i].record.builtin
        ensures Settled(out, author, second[i].record)
      {
        var key := CoordinateOf(author, second[i].record);
        assert Targets(author, first[i], key);
        RecordsLand(rows, author, first, key);
      }
      SettledRunIsSilent(out, author, second);
    } else {
      var i, key :| 0 <= i < |first| && Targets(author, first[i], key)
                    && Asked(author, first, key) != Some(first[i].record.content);
      TargetIsAsked(author, first, i, key);
      RecordsLand(rows, author, first, key);
      if Writes(out, author, second) == 0 {
        SilentRunWasSettled(out, author, second, i);
      }
    }
  }

  /**
   Two slugs that differ only in case name one coordinate, so records under them with different contents never
   settle.
   */
  lemma CaseFoldedSlugsDisagree(author: Author, a: Content, b: Content, first: Turn, second: Turn)
    requires a != b
    requires first.record == Persona("1", Some("Ops"), false, a) && second.record == Persona("2", Some("ops"), false, b)
    ensures !Agree(author, [first, second])
    ensures forall rows, clock ::
              SameRecords([first, second], clock) ==>
                Writes(ReconcileAll(rows, author, [first, second]), author, clock) > 0
  {
    var turns, key := [first, second], CoordinateOf(author, second.record);
    assert NormalizeDTag("Ops") == "ops" && NormalizeDTag("ops") == "ops";
    assert Targets(author, turns[0], key) && Targets(author, turns[1], key);
    assert Asked(author, turns, key) == Some(b);
    forall rows, clock | SameRecords(turns, clock)
      ensures Writes(ReconcileAll(rows, author, turns), author, clock) > 0
    {
      SecondRunSilentIffAgree(rows, author, turns, clock);
    }
  }

  /** A run that stopped part-way, however often, does not change what a complete one arrives at. */
  lemma InterruptedRunRecovers(rows: Rows, author: Author, early: seq<Turn>, stop: nat, full: seq<Turn>,
                               key: Coordinate)
    requires SameRecords(early, full) && stop <= |early|
    ensures var partial := ReconcileAll(rows, author, early[..stop]);
            var a, b := ReconcileAll(partial, author, full), ReconcileAll(rows, author, full);
            key in a <==> key in b
    ensures var partial := ReconcileAll(rows, author, early[..stop]);
            var a, b := ReconcileAll(partial, author, full), ReconcileAll(rows, author, full);
            key in a ==> a[key].content == b[key].content
  {
    var partial := ReconcileAll(rows, author, early[..stop]);
    RecordsLand(partial, author, full, key);
    RecordsLand(rows, author, full, key);
    if Asked(author, full, key).None? {
      RecordsLand(rows, author, early[..stop], key);
      AskedIgnoresClock(author, early, full, key);
      AskedByPrefix(author, early, stop, key);
    }
  }

  lemma {:induction false} AskedByPrefix(author: Author, turns: seq<Turn>, stop: nat, key: Coordinate)
    requires stop <= |turns| && Asked(author, turns, key).None?
    ensures Asked(author, turns[..stop], key).None?
  {
    if stop < |turns| {
      AskedByPrefix(author, turns[..|turns| - 1], stop, key);
      assert turns[..|turns| - 1][..stop] == turns[..stop];
    } else {
      assert turns[..stop] == turns;
    }
  }

  // ---- The count ----

  predicate DistinctTags(author: Author, turns: seq<Turn>) {
    forall i, j :: 0 <= i < j < |turns| && !turns[i].record.builtin && !turns[j].record.builtin ==>
      CoordinateOf(author, turns[i].record) != CoordinateOf(author, turns[j].record)
  }

  /** The coordinates whose row a run replaced. */
  ghost function Replaced(rows: Rows, out: Rows): set<Coordinate> {
    set key | key in out && (key !in rows || out[key] != rows[key])
  }

  lemma {:induction false} FirstMention(author: Author, turns: seq<Turn>)
    requires turns != [] && DistinctTags(author, turns) && !turns[|turns| - 1].record.builtin
    ensures Asked(author, turns[..|turns| - 1], CoordinateOf(author, turns[|turns| - 1].record)).None?
  {
    NotAsked(author, turns[..|turns| - 1], CoordinateOf(author, turns[|turns| - 1].record));
  }

  lemma {:induction false} NotAsked(author: Author, turns: seq<Turn>, key: Coordinate)
    requires forall i :: 0 <= i < |turns| ==> !Targets(author, turns[i], key)
    ensures Asked(author, turns, key).None?
  {
    if turns != [] {
      NotAsked(author, turns[..|turns| - 1], key);
    }
  }

  /** With one record per coordinate the reported number is the number of rows replaced. */
  lemma {:induction false} CountIsRowsReplaced(rows: Rows, author: Author, turns: seq<Turn>)
    requires DistinctTags(author, turns)
    ensures Writes(rows, author, turns) == |Replaced(rows, ReconcileAll(rows, author, turns))|
  {
    if turns == [] {
      assert Replaced(rows, rows) == {};
    } else {
      var before, last := turns[..|turns| - 1], turns[|turns| - 1];
      var mid, out := ReconcileAll(rows, author, before), ReconcileAll(rows, author, turns);
      CountIsRowsReplaced(rows, author, before);
      if !last.record.builtin && !Settled(mid, author, last.record) {
        var key := CoordinateOf(author, last.record);
        FirstMention(author, turns);
        RecordsLand(rows, author, before, key);
        assert key !in Replaced(rows, mid);
        assert Replaced(rows, out) == Replaced(rows, mid) + {key};
      }
    }
  }
}
