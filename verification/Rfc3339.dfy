/** Timestamps as RFC 3339 text: exact, and sorted as text when sorted as instants. */
module Rfc3339 {
  import opened Options
  import opened Decimal
  import opened Calendar

  // ---- Fixed-width fields ----

  /** A number, the width it is padded to, and the character after it. */
  datatype Field = Field(n: nat, width: nat, after: char)

  function Render(fields: seq<Field>): string {
    if fields == [] then ""
    else Padded(fields[0].n, fields[0].width) + ([fields[0].after] + Render(fields[1..]))
  }

  ghost predicate Fits(fields: seq<Field>) { forall i :: 0 <= i < |fields| ==> fields[i].n < Pow10(fields[i].width) }

  ghost predicate SameShape(a: seq<Field>, b: seq<Field>) {
    |a| == |b| && forall i :: 0 <= i < |a| ==> a[i].width == b[i].width && a[i].after == b[i].after
  }

  /** Lexicographic order of the numbers. */
  predicate Less(a: seq<Field>, b: seq<Field>)
    requires |a| == |b|
  {
    a != [] && (a[0].n < b[0].n || (a[0].n == b[0].n && Less(a[1..], b[1..])))
  }

  lemma {:induction false} RenderKeepsOrder(a: seq<Field>, b: seq<Field>)
    requires SameShape(a, b) && Fits(a) && Fits(b) && Less(a, b)
    ensures Before(Render(a), Render(b))
  {
    var p, q := Padded(a[0].n, a[0].width), Padded(b[0].n, b[0].width);
    var x, y := Render(a[1..]), Render(b[1..]);
    if a[0].n < b[0].n {
      PaddedWidth(a[0].n, a[0].width);
      PaddedWidth(b[0].n, b[0].width);
      PaddedKeepsOrder(a[0].n, b[0].n, a[0].width);
      BeforeIgnoresWhatFollows(p, q, [a[0].after] + x, [b[0].after] + y);
    } else {
      RenderKeepsOrder(a[1..], b[1..]);
      BeforeAfterCommonPrefix([a[0].after], x, y);
      BeforeAfterCommonPrefix(p, [a[0].after] + x, [a[0].after] + y);
    }
  }

  /** Reads back the numbers of a text written with the shape of `like`. */
  function Read(s: string, like: seq<Field>): (r: Option<seq<nat>>)
    ensures r.Some? ==> |r.value| == |like|
    decreases like
  {
    if like == [] then (if s == "" then Some([]) else None)
    else
      var w := like[0].width;
      if |s| <= w || s[w] != like[0].after || !AllDigits(s[..w]) then None
      else
        match Read(s[w + 1..], like[1..])
        case None => None
        case Some(rest) => Some([Value(s[..w])] + rest)
  }

  function Numbers(fields: seq<Field>): seq<nat> { seq(|fields|, i requires 0 <= i < |fields| => fields[i].n) }

  /** A text starts with its first field. */
  lemma RenderHead(fields: seq<Field>)
    requires Fits(fields) && fields != []
    ensures var w, s := fields[0].width, Render(fields);
            && |s| > w && s[..w] == Padded(fields[0].n, w)
            && s[w] == fields[0].after && s[w + 1..] == Render(fields[1..])
            && AllDigits(s[..w]) && Value(s[..w]) == fields[0].n
  {
    PaddedWidth(fields[0].n, fields[0].width);
    PaddedReadsBack(fields[0].n, fields[0].width);
  }

  lemma {:induction false} RenderReadsBack(fields: seq<Field>, like: seq<Field>)
    requires Fits(fields) && SameShape(fields, like)
    ensures Read(Render(fields), like) == Some(Numbers(fields))
  {
    if fields != [] {
      RenderHead(fields);
      RenderReadsBack(fields[1..], like[1..]);
      assert Numbers(fields) == [fields[0].n] + Numbers(fields[1..]);
    }
  }

  // ---- The timestamp ----

  /** 10000-01-01T00:00:00Z, where four digits stop sufficing for the year. */
  const YEAR_10000: nat := 253_402_300_800

  function Stamp(t: Date, sod: nat): seq<Field>
    requires t.year >= 0 && t.month >= 0 && t.day >= 0
  {
    [Field(t.year, 4, '-'), Field(t.month, 2, '-'), Field(t.day, 2, 'T'),
     Field(sod / 3600, 2, ':'), Field(sod % 3600 / 60, 2, ':'), Field(sod % 60, 2, 'Z')]
  }

  /** Seconds since the epoch are never before 1970. */
  lemma YearInRange(t: Date, days: int)
    requires Valid(t) && DayNumber(t) == days
    ensures days >= 0 ==> t.year >= 1970
    ensures days < 2_932_897 ==> t.year <= 9999
  {
    var epoch, limit := Date(1970, 1, 1), Date(10_000, 1, 1);
    assert DayNumber(epoch) == 0 && DayNumber(limit) == 2_932_897;
    if t.year < 1970 { EarlierCountsLess(t, epoch); }
    if t.year > 9999 && t != limit { EarlierCountsLess(limit, t); }
  }

  function TimestampToIso(secs: nat): string {
    DaysToYmdCounts(secs / 86_400);
    YearInRange(DaysToYmd(secs / 86_400), secs / 86_400);
    Render(Stamp(DaysToYmd(secs / 86_400), secs % 86_400))
  }

  /** A text of the form `YYYY-MM-DDThh:mm:ssZ`. */
  const SHAPE :=
    [Field(0, 4, '-'), Field(0, 2, '-'), Field(0, 2, 'T'), Field(0, 2, ':'), Field(0, 2, ':'), Field(0, 2, 'Z')]

  /** The instant a timestamp text names. */
  function Instant(s: string): Option<int> {
    match Read(s, SHAPE)
    case None => None
    case Some(v) =>
      if !(1 <= v[1] <= 12) then None
      else Some(86_400 * DayNumber(Date(v[0], v[1], v[2])) + 3600 * v[3] + 60 * v[4] + v[5])
  }

  lemma ClockParts(sod: nat)
    requires sod < 86_400
    ensures 3600 * (sod / 3600) + 60 * (sod % 3600 / 60) + sod % 60 == sod
    ensures sod / 3600 < 24 && sod % 3600 / 60 < 60
  {
    var h, r := sod / 3600, sod % 3600;
    var m, s := r / 60, r % 60;
    assert sod == 60 * (60 * h + m) + s;
  }

  lemma StampFits(t: Date, sod: nat)
    requires Valid(t) && 0 <= t.year <= 9999 && sod < 86_400
    ensures Fits(Stamp(t, sod)) && SameShape(Stamp(t, sod), SHAPE)
  {
    assert Pow10(2) == 100 && Pow10(4) == 10_000;
    ClockParts(sod);
  }

  lemma StampReadsBack(t: Date, sod: nat)
    requires Valid(t) && 0 <= t.year <= 9999 && sod < 86_400
    ensures Instant(Render(Stamp(t, sod))) == Some(86_400 * DayNumber(t) + sod)
  {
    StampFits(t, sod);
    RenderReadsBack(Stamp(t, sod), SHAPE);
    ClockParts(sod);
    var v := Numbers(Stamp(t, sod));
    assert Date(v[0], v[1], v[2]) == t;
  }

  /** The text of an instant is the stamp of its date and time of day. */
  lemma TextOfInstant(secs: nat) returns (t: Date, sod: nat)
    ensures Valid(t) && t.year >= 1970 && sod < 86_400 && 86_400 * DayNumber(t) + sod == secs
    ensures secs < YEAR_10000 ==> t.year <= 9999
    ensures TimestampToIso(secs) == Render(Stamp(t, sod))
  {
    DaysToYmdCounts(secs / 86_400);
    t, sod := DaysToYmd(secs / 86_400), secs % 86_400;
    YearInRange(t, secs / 86_400);
  }

  /** Printing is exact for every second of the four-digit years. */
  lemma PrintedInstantReadsBack(secs: nat)
    requires secs < YEAR_10000
    ensures Instant(TimestampToIso(secs)) == Some(secs)
  {
    var t, sod := TextOfInstant(secs);
    StampReadsBack(t, sod);
  }

  lemma ClockOrder(h: nat, m: nat, s: nat, h': nat, m': nat, s': nat)
    requires m < 60 && s < 60 && m' < 60 && s' < 60
    requires 3600 * h + 60 * m + s < 3600 * h' + 60 * m' + s'
    ensures h < h' || (h == h' && (m < m' || (m == m' && s < s')))
  {
  }

  /** `Less` spelled out from position `i` on. */
  lemma LessFrom(a: seq<Field>, b: seq<Field>, i: nat)
    requires i < |a| == |b|
    ensures Less(a[i..], b[i..]) <==> a[i].n < b[i].n || (a[i].n == b[i].n && Less(a[i + 1..], b[i + 1..]))
  {
    assert a[i..][1..] == a[i + 1..] && b[i..][1..] == b[i + 1..];
  }

  lemma ClockFieldsOrder(t: Date, x: nat, y: nat)
    requires Valid(t) && t.year >= 0 && x < y < 86_400
    ensures Less(Stamp(t, x)[3..], Stamp(t, y)[3..])
  {
    var a, b := Stamp(t, x), Stamp(t, y);
    ClockParts(x);
    ClockParts(y);
    ClockOrder(x / 3600, x % 3600 / 60, x % 60, y / 3600, y % 3600 / 60, y % 60);
    LessFrom(a, b, 3);
    LessFrom(a, b, 4);
    LessFrom(a, b, 5);
  }

  lemma StampKeepsOrder(t: Date, u: Date, x: nat, y: nat)
    requires Valid(t) && Valid(u) && t.year >= 0 && u.year >= 0 && x < 86_400 && y < 86_400
    requires Earlier(t, u) || (t == u && x < y)
    ensures Less(Stamp(t, x), Stamp(u, y))
  {
    var a, b := Stamp(t, x), Stamp(u, y);
    if t == u { ClockFieldsOrder(t, x, y); }
    LessFrom(a, b, 0);
    LessFrom(a, b, 1);
    LessFrom(a, b, 2);
    assert a[0..] == a && b[0..] == b;
  }

  lemma RenderedStampsKeepOrder(t: Date, u: Date, x: nat, y: nat)
    requires Valid(t) && Valid(u) && 0 <= t.year <= 9999 && 0 <= u.year <= 9999 && x < 86_400 && y < 86_400
    requires Earlier(t, u) || (t == u && x < y)
    ensures Before(Render(Stamp(t, x)), Render(Stamp(u, y)))
  {
    StampKeepsOrder(t, u, x, y);
    StampFits(t, x);
    StampFits(u, y);
    RenderKeepsOrder(Stamp(t, x), Stamp(u, y));
  }

  lemma InstantOrder(t: Date, u: Date, x: nat, y: nat)
    requires Valid(t) && Valid(u) && x < 86_400 && y < 86_400
    requires 86_400 * DayNumber(t) + x < 86_400 * DayNumber(u) + y
    ensures Earlier(t, u) || (t == u && x < y)
  {
    if Earlier(u, t) { EarlierCountsLess(u, t); }
  }

  /** Earlier instants print earlier text. */
  lemma PrintingKeepsOrder(x: nat, y: nat)
    requires x < y < YEAR_10000
    ensures Before(TimestampToIso(x), TimestampToIso(y))
  {
    var t, i := TextOfInstant(x);
    var u, j := TextOfInstant(y);
    InstantOrder(t, u, i, j);
    RenderedStampsKeepOrder(t, u, i, j);
  }

  lemma FirstDigits()
    ensures Padded(9999, 4)[0] == '9' && Padded(10_000, 4)[0] == '1'
  {
    assert Padded(99, 2) == ['9', '9'];
    assert Padded(9999, 4) == Padded(999, 3) + ['9'] && Padded(999, 3) == Padded(99, 2) + ['9'];
    assert Padded(100, 2) == Padded(10, 1) + ['0'] && Padded(10, 1) == ['1', '0'];
    assert Padded(10_000, 4) == Padded(1000, 3) + ['0'] && Padded(1000, 3) == Padded(100, 2) + ['0'];
  }

  lemma SameDate(t: Date, u: Date, x: nat, y: nat)
    requires Valid(t) && Valid(u) && x < 86_400 && y < 86_400
    requires 86_400 * DayNumber(t) + x == 86_400 * DayNumber(u) + y
    ensures t == u && x == y
  {
    if Earlier(t, u) { EarlierCountsLess(t, u); }
    if Earlier(u, t) { EarlierCountsLess(u, t); }
  }

  lemma StampStartsWithYear(t: Date, sod: nat)
    requires t.year >= 0 && t.month >= 0 && t.day >= 0
    ensures Render(Stamp(t, sod)) != "" && Render(Stamp(t, sod))[0] == Padded(t.year, 4)[0]
  {
  }

  /** The bound is sharp: the first second of year 10000 sorts before the second that precedes it. */
  lemma OrderStopsAtYear10000()
    ensures Before(TimestampToIso(YEAR_10000), TimestampToIso(YEAR_10000 - 1))
  {
    var last, first := Date(9999, 12, 31), Date(10_000, 1, 1);
    LastDays();
    var t, i := TextOfInstant(YEAR_10000 - 1);
    SameDate(t, last, i, 86_399);
    StampStartsWithYear(last, 86_399);
    var u, j := TextOfInstant(YEAR_10000);
    SameDate(u, first, j, 0);
    StampStartsWithYear(first, 0);
    FirstDigits();
  }

  lemma LastDays()
    ensures DayNumber(Date(9999, 12, 31)) == 2_932_896 && DayNumber(Date(10_000, 1, 1)) == 2_932_897
  {
    MonthTable(9999);
  }
}
