/** The retained-event table: where each persona and team record goes, and the row it leaves there. */
module EventTable {
  import opened Options

  // ---- Coordinates ----

  datatype Kind = PersonaKind | TeamKind

  datatype Author = Author(pubkey: string)

  datatype Coordinate = Coordinate(kind: Kind, author: Author, d: string)

  datatype Content = Content(json: string)

  datatype Record =
    | Persona(id: string, slug: Option<string>, builtin: bool, content: Content)
    | Team(id: string, builtin: bool, content: Content)

  predicate SlugChar(c: char) { 'a' <= c <= 'z' || '0' <= c <= '9' || c == '_' || c == '-' }

  predicate SlugStart(c: char) { 'a' <= c <= 'z' || '0' <= c <= '9' }

  function Fold(c: char): char {
    var l := if 'A' <= c <= 'Z' then c - 'A' + 'a' else c;
    if SlugChar(l) then l else '-'
  }

  function NormalizeDTag(raw: string): string {
    var mapped := seq(|raw|, i requires 0 <= i < |raw| => Fold(raw[i]));
    var led := if mapped != [] && SlugStart(mapped[0]) then mapped else ['a'] + mapped;
    if |led| > 64 then led[..64] else led
  }

  /** The relay's slug grammar: `[a-z0-9][a-z0-9_-]{0,63}`. */
  predicate IsSlug(s: string) { 1 <= |s| <= 64 && SlugStart(s[0]) && forall c :: c in s ==> SlugChar(c) }

  /** Every name is brought into the grammar, and a name already in it is left alone. */
  lemma NormalizedIsSlug(raw: string)
    ensures IsSlug(NormalizeDTag(raw))
    ensures IsSlug(raw) <==> NormalizeDTag(raw) == raw
    ensures NormalizeDTag(NormalizeDTag(raw)) == NormalizeDTag(raw)
  {
    SlugIsFixed(raw);
    SlugIsFixed(NormalizeDTag(raw));
  }

  lemma SlugIsFixed(s: string)
    ensures IsSlug(s) ==> NormalizeDTag(s) == s
  {
    if IsSlug(s) {
      forall i | 0 <= i < |s|
        ensures Fold(s[i]) == s[i]
      {
        assert s[i] in s;
      }
      assert seq(|s|, i requires 0 <= i < |s| => Fold(s[i])) == s;
    }
  }

  function CoordinateOf(author: Author, record: Record): Coordinate {
    match record
    case Persona(id, slug, _, _) =>
      Coordinate(PersonaKind, author, NormalizeDTag(if slug.Some? then slug.value else id))
    case Team(id, _, _) => Coordinate(TeamKind, author, id)
  }

  // ---- The table ----

  datatype Row = Row(content: Content, createdAt: int, shared: bool, pending: bool)

  type Rows = map<Coordinate, Row>

  /** The upsert: an event dated before the retained head is dropped. */
  function Retain(rows: Rows, key: Coordinate, row: Row): Rows {
    if key in rows && row.createdAt < rows[key].createdAt then rows else rows[key := row]
  }

  /**
   The table keeps the latest-dated event of a coordinate, whatever order two of them arrive in; an event as old as
   the head replaces it.
   */
  lemma RetainKeepsLatest(rows: Rows, key: Coordinate, a: Row, b: Row)
    requires a.createdAt != b.createdAt
    ensures key in rows ==> Retain(rows, key, a)[key] == if a.createdAt >= rows[key].createdAt then a else rows[key]
    ensures Retain(Retain(rows, key, a), key, b) == Retain(Retain(rows, key, b), key, a)
    ensures var out := Retain(Retain(rows, key, a), key, b);
            && key in out && out[key].createdAt >= Max(a.createdAt, b.createdAt)
            && (out[key] == a || out[key] == b || (key in rows && out[key] == rows[key]))
            && out - {key} == rows - {key}
  {
  }

  /** A date past the head, whatever the clock says. */
  function MonotonicCreatedAt(now: int, head: Option<int>): int {
    Max(now, if head.Some? then head.value + 1 else 0)
  }

  /** One record's turn of the loop, with the clock it reads and what goes wrong. */
  datatype Fault = Fine | BuildFails | StoreFails

  datatype Turn = Turn(record: Record, now: nat, fault: Fault)

  predicate Settled(rows: Rows, author: Author, record: Record) {
    var key := CoordinateOf(author, record);
    key in rows && rows[key].content == record.content
  }

  function Existing(rows: Rows, key: Coordinate): Option<Row> { if key in rows then Some(rows[key]) else None }

  function Rebuilt(existing: Option<Row>, record: Record, now: int): Row {
    var head := if existing.Some? then Some(existing.value.createdAt) else None;
    Row(record.content,
        MonotonicCreatedAt(now, head),
        record.Persona? && existing.Some? && existing.value.shared,
        true)
  }

  function Reconcile(rows: Rows, author: Author, turn: Turn): Rows {
    var Turn(record, now, _) := turn;
    var key := CoordinateOf(author, record);
    if record.builtin || Settled(rows, author, record) then rows
    else Retain(rows, key, Rebuilt(Existing(rows, key), record, now))
  }

  function ReconcileAll(rows: Rows, author: Author, turns: seq<Turn>): Rows {
    if turns == [] then rows
    else Reconcile(ReconcileAll(rows, author, turns[..|turns| - 1]), author, turns[|turns| - 1])
  }

  // ---- The same, written out ----

  /** What one character of a name becomes: 32 code points lie between a capital and its small letter. */
  predicate FoldsTo(c: char, t: char) {
    if 'A' <= c <= 'Z' then t as int == c as int + 32
    else if 'a' <= c <= 'z' || '0' <= c <= '9' || c == '_' || c == '-' then t == c
    else t == '-'
  }

  /** A name that does not start with a letter or a digit is led by an `a`. */
  function Lead(name: string): nat {
    if name != "" && ('A' <= name[0] <= 'Z' || 'a' <= name[0] <= 'z' || '0' <= name[0] <= '9') then 0 else 1
  }

  /** The tag of a name, character by character. */
  predicate SpelledTag(name: string, tag: string) {
    && |tag| == Min(64, |name| + Lead(name))
    && (Lead(name) == 1 ==> tag[0] == 'a')
    && forall i :: Lead(name) <= i < |tag| ==> FoldsTo(name[i - Lead(name)], tag[i])
  }

  /** The tag of a name is the one spelled out, and no other. */
  lemma TagIsSpelled(name: string, tag: string)
    ensures SpelledTag(name, tag) <==> tag == NormalizeDTag(name)
  {
    var made := NormalizeDTag(name);
    forall i | Lead(name) <= i < |made|
      ensures FoldsTo(name[i - Lead(name)], made[i])
    {
    }
    if SpelledTag(name, tag) {
      assert tag == made;
    }
  }

  /** The name a persona goes by: its slug in its pack, or else its id. */
  function NameOf(record: Record): string
    requires record.Persona?
  {
    match record.slug
    case Some(slug) => slug
    case None => record.id
  }

  /** A record goes to a coordinate: a team under its id, a persona under its name's tag. */
  predicate Claims(author: Author, record: Record, key: Coordinate) {
    && key.author == author
    && match record
       case Persona(_, _, _, _) => key.kind.PersonaKind? && SpelledTag(NameOf(record), key.d)
       case Team(id, _, _) => key.kind.TeamKind? && key.d == id
  }

  lemma ClaimsItsCoordinate(author: Author, record: Record, key: Coordinate)
    ensures Claims(author, record, key) <==> CoordinateOf(author, record) == key
  {
    if record.Persona? {
      TagIsSpelled(NameOf(record), key.d);
    }
  }

  /** Two records share a coordinate exactly if they are teams of one id, or personas whose names spell one tag. */
  lemma ShareIff(author: Author, a: Record, b: Record)
    ensures CoordinateOf(author, a) == CoordinateOf(author, b)
            <==> || (a.Team? && b.Team? && a.id == b.id)
                 || (a.Persona? && b.Persona?
                     && exists d :: SpelledTag(NameOf(a), d) && SpelledTag(NameOf(b), d))
  {
    if a.Persona? && b.Persona? {
      var x, y := NameOf(a), NameOf(b);
      TagIsSpelled(x, NormalizeDTag(x));
      TagIsSpelled(y, NormalizeDTag(x));
      forall d | SpelledTag(x, d) && SpelledTag(y, d)
        ensures NormalizeDTag(x) == NormalizeDTag(y)
      {
        TagIsSpelled(x, d);
        TagIsSpelled(y, d);
      }
    }
  }

  /** The leading `a` does not keep names apart: a name that needs it shares its tag with the name that has it. */
  lemma LeadCollides(name: string)
    requires Lead(name) == 1
    ensures NormalizeDTag(name) == NormalizeDTag("a" + name) && name != "a" + name
  {
    var tag := NormalizeDTag(name);
    TagIsSpelled(name, tag);
    forall i | 0 <= i < |tag|
      ensures FoldsTo(("a" + name)[i], tag[i])
    {
      if i > 0 {
        assert ("a" + name)[i] == name[i - 1];
      }
    }
    assert Lead("a" + name) == 0;
    TagIsSpelled("a" + name, tag);
  }

  /** What a record's turn makes of the row at a coordinate, in terms of that row alone. */
  ghost function RowAfter(row: Option<Row>, author: Author, turn: Turn, key: Coordinate): Option<Row> {
    var Turn(record, now, _) := turn;
    if record.builtin || !Claims(author, record, key) then row
    else
      match row
      case None => Some(Row(record.content, now, false, true))
      case Some(Row(content, createdAt, shared, _)) =>
        if content == record.content then row
        else Some(Row(record.content, if now > createdAt then now else createdAt + 1, shared && record.Persona?, true))
  }

  ghost function RowAfterAll(row: Option<Row>, author: Author, turns: seq<Turn>, key: Coordinate): Option<Row> {
    if turns == [] then row
    else RowAfter(RowAfterAll(row, author, turns[..|turns| - 1], key), author, turns[|turns| - 1], key)
  }

  /**
   Each coordinate goes its own way: new content is written, dated by the clock or one past the head it replaces if
   that is later.
   */
  lemma TurnLeavesRow(rows: Rows, author: Author, turn: Turn, key: Coordinate)
    ensures Existing(Reconcile(rows, author, turn), key) == RowAfter(Existing(rows, key), author, turn, key)
  {
    ClaimsItsCoordinate(author, turn.record, key);
  }

  lemma {:induction false} RunLeavesRow(rows: Rows, author: Author, turns: seq<Turn>, key: Coordinate)
    ensures Existing(ReconcileAll(rows, author, turns), key) == RowAfterAll(Existing(rows, key), author, turns, key)
  {
    if turns != [] {
      var before := turns[..|turns| - 1];
      RunLeavesRow(rows, author, before, key);
      TurnLeavesRow(ReconcileAll(rows, author, before), author, turns[|turns| - 1], key);
    }
  }

  /** One record, and no other, is after a coordinate. */
  ghost predicate OnlyClaim(author: Author, turns: seq<Turn>, i: nat, key: Coordinate) {
    && i < |turns| && !turns[i].record.builtin && Claims(author, turns[i].record, key)
    && forall j :: 0 <= j < |turns| && j != i && !turns[j].record.builtin ==> !Claims(author, turns[j].record, key)
  }

  lemma {:induction false} UnclaimedRowStays(row: Option<Row>, author: Author, turns: seq<Turn>, key: Coordinate)
    requires forall j :: 0 <= j < |turns| && !turns[j].record.builtin ==> !Claims(author, turns[j].record, key)
    ensures RowAfterAll(row, author, turns, key) == row
  {
    if turns != [] {
      UnclaimedRowStays(row, author, turns[..|turns| - 1], key);
    }
  }

  /** A record with a coordinate to itself has exactly its own turn's row there when the run is over. */
  lemma {:induction false} OwnRowIsExact(row: Option<Row>, author: Author, turns: seq<Turn>, i: nat, key: Coordinate)
    requires OnlyClaim(author, turns, i, key)
    ensures RowAfterAll(row, author, turns, key) == RowAfter(row, author, turns[i], key)
  {
    var before := turns[..|turns| - 1];
    if i < |before| {
      OwnRowIsExact(row, author, before, i, key);
    } else {
      UnclaimedRowStays(row, author, before, key);
    }
  }

  /** Every team whose id is its own keeps a row of its own, with its own content. */
  lemma TeamsKeepTheirRows(rows: Rows, author: Author, turns: seq<Turn>, i: nat)
    requires i < |turns| && turns[i].record.Team? && !turns[i].record.builtin
    requires forall j :: 0 <= j < |turns| && j != i && turns[j].record.Team? && !turns[j].record.builtin ==>
                           turns[j].record.id != turns[i].record.id
    ensures var key, out := Coordinate(TeamKind, author, turns[i].record.id), ReconcileAll(rows, author, turns);
            && key in out && out[key].content == turns[i].record.content
            && (key !in rows ==> out[key] == Row(turns[i].record.content, turns[i].now, false, true))
  {
    var key := Coordinate(TeamKind, author, turns[i].record.id);
    RunLeavesRow(rows, author, turns, key);
    OwnRowIsExact(Existing(rows, key), author, turns, i, key);
  }
}
