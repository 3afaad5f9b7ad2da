/**
 The civil-from-days conversion, for every day count, against the proleptic Gregorian
 calendar written down directly: leap rule, month lengths, day-after-day.
 */
module Calendar {

  datatype Date = Date(year: int, month: int, day: int)

  /** Rust's `/` on signed integers truncates toward zero. */
  function TruncDiv(a: int, b: int): int
    requires b > 0
  {
    if a >= 0 then a / b else -((-a) / b)
  }

  function DaysToYmd(days: int): Date {
    var era := Era(days + 719_468);
    DayOfEra(era, days + 719_468 - era * 146_097)
  }

  /** The 400-year era of day `z`, counted from 0000-03-01. */
  function Era(z: int): int { TruncDiv(if z >= 0 then z else z - 146_096, 146_097) }

  /** The second half of the conversion: day `doe` of a 400-year era that starts on a first of March. */
  function DayOfEra(era: int, doe: int): Date {
    var yoe := YearOfEra(doe);
    var doy := doe - (365 * yoe + yoe / 4 - yoe / 100);
    var mp := (5 * doy + 2) / 153;
    FromMarch(yoe + era * 400, mp, doy - (153 * mp + 2) / 5 + 1)
  }

  function YearOfEra(doe: int): int { (doe - doe / 1460 + doe / 36524 - doe / 146_096) / 365 }

  /** A March-based year and month as a civil date. */
  function FromMarch(y: int, mp: int, d: int): Date {
    var m := if mp < 10 then mp + 3 else mp - 9;
    Date(if m <= 2 then y + 1 else y, m, d)
  }

  // ---- The calendar itself ----

  predicate Leap(y: int) { y % 4 == 0 && (y % 100 != 0 || y % 400 == 0) }

  function DaysInMonth(y: int, m: int): int
    requires 1 <= m <= 12
  {
    if m == 2 then (if Leap(y) then 29 else 28)
    else if m == 4 || m == 6 || m == 9 || m == 11 then 30
    else 31
  }

  predicate Valid(t: Date) { 1 <= t.month <= 12 && 1 <= t.day <= DaysInMonth(t.year, t.month) }

  function NextDay(t: Date): Date
    requires Valid(t)
  {
    if t.day < DaysInMonth(t.year, t.month) then t.(day := t.day + 1)
    else if t.month < 12 then Date(t.year, t.month + 1, 1)
    else Date(t.year + 1, 1, 1)
  }

  function DaysBeforeMonth(y: int, m: int): int
    requires 1 <= m <= 12
  {
    if m == 1 then 0 else DaysBeforeMonth(y, m - 1) + DaysInMonth(y, m - 1)
  }

  /** Days from 0000-01-01 to the first of January of year `y`. */
  function DaysBeforeYear(y: int): int { 365 * y + (y + 3) / 4 - (y + 99) / 100 + (y + 399) / 400 }

  /** Days from 1970-01-01, counted by whole years, whole months and days. */
  function DayNumber(t: Date): int
    requires 1 <= t.month <= 12
  {
    DaysBeforeYear(t.year) + DaysBeforeMonth(t.year, t.month) + t.day - 1 - 719_528
  }

  lemma QuarterStep(y: int)
    ensures (y + 4) / 4 - (y + 3) / 4 == if y % 4 == 0 then 1 else 0
  {
  }

  lemma CenturyStep(y: int)
    ensures (y + 100) / 100 - (y + 99) / 100 == if y % 100 == 0 then 1 else 0
    ensures y % 100 == 0 ==> y % 4 == 0
  {
  }

  lemma EraStep(y: int)
    ensures (y + 400) / 400 - (y + 399) / 400 == if y % 400 == 0 then 1 else 0
    ensures y % 400 == 0 ==> y % 100 == 0
  {
  }

  /** Years really follow one another in the count: each is 365 days, 366 when leap. */
  lemma YearLength(y: int)
    ensures DaysBeforeYear(y + 1) - DaysBeforeYear(y) == if Leap(y) then 366 else 365
  {
    QuarterStep(y);
    CenturyStep(y);
    EraStep(y);
  }

  lemma MonthTable(y: int)
    ensures var l := if Leap(y) then 1 else 0;
            && DaysBeforeMonth(y, 1) == 0 && DaysBeforeMonth(y, 2) == 31
            && DaysBeforeMonth(y, 3) == 59 + l && DaysBeforeMonth(y, 4) == 90 + l
            && DaysBeforeMonth(y, 5) == 120 + l && DaysBeforeMonth(y, 6) == 151 + l
            && DaysBeforeMonth(y, 7) == 181 + l && DaysBeforeMonth(y, 8) == 212 + l
            && DaysBeforeMonth(y, 9) == 243 + l && DaysBeforeMonth(y, 10) == 273 + l
            && DaysBeforeMonth(y, 11) == 304 + l && DaysBeforeMonth(y, 12) == 334 + l
  {
  }

  // ---- Counting from the first of March ----

  /** Days from 0000-03-01 to the first of March of year `y`. */
  function MarchStart(y: int): int { 365 * y + y / 4 - y / 100 + y / 400 }

  lemma MarchMeetsJanuary(y: int)
    ensures DaysBeforeYear(y) + 59 + (if Leap(y) then 1 else 0) == MarchStart(y) + 60
    ensures DaysBeforeYear(y + 1) == MarchStart(y) + 366
  {
    YearLength(y);
    assert (y + 4) / 4 == y / 4 + 1 && (y + 100) / 100 == y / 100 + 1 && (y + 400) / 400 == y / 400 + 1;
  }

  lemma MarchStartOfEra(era: int, yoe: int)
    requires 0 <= yoe < 400
    ensures MarchStart(yoe + era * 400) == era * 146_097 + 365 * yoe + yoe / 4 - yoe / 100
  {
    var y := yoe + era * 400;
    assert y / 4 == yoe / 4 + era * 100;
    assert y / 100 == yoe / 100 + era * 4;
    assert y / 400 == era;
  }

  lemma EraIsFloor(z: int)
    ensures Era(z) == z / 146_097
  {
    if z < 0 {
      var q, r := z / 146_097, z % 146_097;
      assert z == q * 146_097 + r;
      var n := 146_096 - z;
      assert n == -q * 146_097 + (146_096 - r);
      assert n / 146_097 == -q;
    }
  }

  /**
   The year-of-era formula finds the March year holding day `doe`; day 365 occurs only before a leap February's
   end.
   */
  lemma YearOfEraHolds(doe: int)
    requires 0 <= doe < 146_097
    ensures var yoe := YearOfEra(doe);
            var doy := doe - (365 * yoe + yoe / 4 - yoe / 100);
            && 0 <= yoe < 400 && 0 <= doy <= 365
            && (doy == 365 ==> Leap(yoe + 1))
  {
    if doe < 146_096 {
      var c, q, t, e := Parts(doe);
      YearOfParts(c, q, t, e);
      YearOfEraFromParts(c, q, t, e);
    } else {
      assert YearOfEra(146_096) == 399;
    }
  }

  /** Whole centuries, whole four-years, the rest, and whether the leap correction has overshot. */
  lemma Parts(doe: int) returns (c: int, q: int, t: int, e: int)
    requires 0 <= doe < 146_096
    ensures doe == 36524 * c + 1461 * q + t
    ensures 0 <= c <= 3 && 0 <= q <= 24 && 0 <= t < 1461 && 1461 * q + t < 36524
    ensures e == if 24 * c + q + t >= 1460 then 1 else 0
  {
    c := doe / 36524;
    q, t := doe % 36524 / 1461, doe % 36524 % 1461;
    e := if 24 * c + q + t >= 1460 then 1 else 0;
  }

  /** How the three corrections of the formula read on 36524-day centuries and 1461-day four-years. */
  lemma YearsPassed(c: int, q: int, t: int, e: int)
    requires 0 <= c <= 3 && 0 <= q <= 24 && 0 <= t < 1461 && 1461 * q + t < 36524
    requires e == if 24 * c + q + t >= 1460 then 1 else 0
    ensures var doe := 36524 * c + 1461 * q + t;
            doe / 1460 == 25 * c + q + e && doe / 36524 == c && doe / 146_096 == 0
  {
    var doe := 36524 * c + 1461 * q + t;
    assert doe == 1460 * (25 * c + q) + (24 * c + q + t);
  }

  lemma YearOfParts(c: int, q: int, t: int, e: int)
    requires 0 <= c <= 3 && 0 <= q <= 24 && 0 <= t < 1461 && 1461 * q + t < 36524
    requires e == if 24 * c + q + t >= 1460 then 1 else 0
    ensures YearOfEra(36524 * c + 1461 * q + t) == (36500 * c + 1460 * q + t - e) / 365
  {
    YearsPassed(c, q, t, e);
  }

  lemma YearOfEraFromParts(c: int, q: int, t: int, e: int)
    requires 0 <= c <= 3 && 0 <= q <= 24 && 0 <= t < 1461 && 1461 * q + t < 36524
    requires e == if 24 * c + q + t >= 1460 then 1 else 0
    ensures var k := (t - e) / 365; var yoe := (36500 * c + 1460 * q + t - e) / 365;
            && yoe == 100 * c + 4 * q + k && 0 <= k <= 3
            && 365 * yoe + yoe / 4 - yoe / 100 == 36524 * c + 1461 * q + 365 * k
            && 0 <= t - 365 * k <= 365
            && (t - 365 * k == 365 ==> k == 3 && q < 24 && Leap(yoe + 1))
  {
    var k := (t - e) / 365;
    assert t == 0 ==> e == 0;
    assert 0 <= k <= 3;
    var yoe := (36500 * c + 1460 * q + t - e) / 365;
    assert yoe == 100 * c + 4 * q + k;
    assert yoe / 4 == 25 * c + q && yoe / 100 == c;
    if t - 365 * k == 365 {
      assert k == 3 && t == 1460 && q < 24;
      assert (yoe + 1) % 4 == 0 && (yoe + 1) % 100 == 4 * q + 4;
    }
  }

  /** Each day of a March year falls in the month the formula names. */
  lemma MonthOfYearHolds(doy: int)
    requires 0 <= doy <= 365
    ensures var mp := (5 * doy + 2) / 153;
            var start := (153 * mp + 2) / 5;
            && 0 <= mp <= 11 && start <= doy
            && (mp < 11 ==> doy < (153 * (mp + 1) + 2) / 5)
            && start == [0, 31, 61, 92, 122, 153, 184, 214, 245, 275, 306, 337][mp]
  {
  }

  lemma FromMarchCounts(y: int, doy: int)
    requires 0 <= doy <= 365 && (doy == 365 ==> Leap(y + 1))
    ensures var mp := (5 * doy + 2) / 153;
            var t := FromMarch(y, mp, doy - (153 * mp + 2) / 5 + 1);
            Valid(t) && DayNumber(t) == MarchStart(y) + doy - 719_468
  {
    MonthOfYearHolds(doy);
    MarchMeetsJanuary(y);
    MonthTable(y);
    MonthTable(y + 1);
  }

  lemma Shift4(y: int, n: int)
    ensures (y + 4 * n) % 4 == y % 4
  {
  }

  lemma Shift100(y: int, n: int)
    ensures (y + 100 * n) % 100 == y % 100
  {
  }

  lemma Shift400(y: int, n: int)
    ensures (y + 400 * n) % 400 == y % 400
  {
  }

  lemma LeapRepeats(y: int, era: int)
    ensures Leap(y + 400 * era) == Leap(y)
  {
    Shift4(y, 100 * era);
    Shift100(y, 4 * era);
    Shift400(y, era);
    assert y + 4 * (100 * era) == y + 400 * era == y + 100 * (4 * era);
  }

  /** Day `doy` of March year `yoe` of an era, counted from the epoch. */
  lemma DayOfMarchYear(era: int, yoe: int, doy: int)
    requires 0 <= yoe < 400 && 0 <= doy <= 365 && (doy == 365 ==> Leap(yoe + 1))
    ensures var mp := (5 * doy + 2) / 153;
            var t := FromMarch(yoe + era * 400, mp, doy - (153 * mp + 2) / 5 + 1);
            Valid(t) && DayNumber(t) == era * 146_097 + (365 * yoe + yoe / 4 - yoe / 100) + doy - 719_468
  {
    LeapRepeats(yoe + 1, era);
    MarchStartOfEra(era, yoe);
    FromMarchCounts(yoe + era * 400, doy);
  }

  lemma DayOfEraCounts(era: int, doe: int) returns (t: Date)
    requires 0 <= doe < 146_097
    ensures t == DayOfEra(era, doe) && Valid(t) && DayNumber(t) == era * 146_097 + doe - 719_468
  {
    var yoe, doy := YearAndDay(doe);
    DayOfMarchYear(era, yoe, doy);
    t := DayOfEra(era, doe);
  }

  lemma YearAndDay(doe: int) returns (yoe: int, doy: int)
    requires 0 <= doe < 146_097
    ensures yoe == YearOfEra(doe) && doy == doe - (365 * yoe + yoe / 4 - yoe / 100)
    ensures 0 <= yoe < 400 && 0 <= doy <= 365 && (doy == 365 ==> Leap(yoe + 1))
  {
    YearOfEraHolds(doe);
    yoe := YearOfEra(doe);
    doy := doe - (365 * yoe + yoe / 4 - yoe / 100);
  }

  /** Every day count converts to a date that exists and has exactly that day number. */
  lemma DaysToYmdCounts(days: int)
    ensures Valid(DaysToYmd(days)) && DayNumber(DaysToYmd(days)) == days
  {
    var era, doe := EraParts(days);
    var t := DayOfEraCounts(era, doe);
    assert DaysToYmd(days) == t;
  }

  lemma EraParts(days: int) returns (era: int, doe: int)
    ensures 0 <= doe < 146_097 && era * 146_097 + doe == days + 719_468
    ensures era == Era(days + 719_468)
  {
    EraIsFloor(days + 719_468);
    era := Era(days + 719_468);
    doe := days + 719_468 - era * 146_097;
  }

  // ---- The count separates dates ----

  predicate Earlier(a: Date, b: Date) {
    a.year < b.year || (a.year == b.year && (a.month < b.month || (a.month == b.month && a.day < b.day)))
  }

  lemma MonthFitsYear(t: Date)
    requires Valid(t)
    ensures DaysBeforeYear(t.year) <= DayNumber(t) + 719_528 < DaysBeforeYear(t.year + 1)
  {
    MonthTable(t.year);
    YearLength(t.year);
  }

  lemma {:induction false} YearsGrow(a: int, b: int)
    requires a <= b
    ensures DaysBeforeYear(a) <= DaysBeforeYear(b)
    decreases b - a
  {
    if a < b {
      YearLength(a);
      YearsGrow(a + 1, b);
    }
  }

  lemma {:induction false} MonthsGrow(y: int, a: int, b: int)
    requires 1 <= a < b <= 12
    ensures DaysBeforeMonth(y, a) + DaysInMonth(y, a) <= DaysBeforeMonth(y, b)
    decreases b
  {
    if a < b - 1 { MonthsGrow(y, a, b - 1); }
  }

  lemma EarlierCountsLess(a: Date, b: Date)
    requires Valid(a) && Valid(b) && Earlier(a, b)
    ensures DayNumber(a) < DayNumber(b)
  {
    if a.year < b.year {
      MonthFitsYear(a);
      MonthFitsYear(b);
      YearsGrow(a.year + 1, b.year);
    } else if a.month < b.month {
      MonthsGrow(a.year, a.month, b.month);
    }
  }

  /** The conversion inverts counting, on every date of the calendar. */
  lemma YmdOfDayNumber(t: Date)
    requires Valid(t)
    ensures DaysToYmd(DayNumber(t)) == t
  {
    var u := DaysToYmd(DayNumber(t));
    DaysToYmdCounts(DayNumber(t));
    if Earlier(u, t) { EarlierCountsLess(u, t); }
    if Earlier(t, u) { EarlierCountsLess(t, u); }
  }

  lemma NextDayCounts(t: Date)
    requires Valid(t)
    ensures Valid(NextDay(t)) && DayNumber(NextDay(t)) == DayNumber(t) + 1
  {
    YearLength(t.year);
    MonthTable(t.year);
  }

  /** Day 0 is the epoch, and day `d + 1` is the day after day `d`: the conversion is the calendar. */
  lemma DayAfterDay(days: int)
    ensures DaysToYmd(0) == Date(1970, 1, 1)
    ensures Valid(DaysToYmd(days)) && DaysToYmd(days + 1) == NextDay(DaysToYmd(days))
  {
    YmdOfDayNumber(Date(1970, 1, 1));
    DaysToYmdCounts(days);
    NextDayOfDay(DaysToYmd(days), days);
  }

  lemma NextDayOfDay(t: Date, days: int)
    requires Valid(t) && DayNumber(t) == days
    ensures DaysToYmd(days + 1) == NextDay(t)
  {
    NextDayCounts(t);
    YmdOfDayNumber(NextDay(t));
  }

  /** Later days are later dates. */
  lemma DaysToYmdKeepsOrder(a: int, b: int)
    requires a < b
    ensures Earlier(DaysToYmd(a), DaysToYmd(b))
  {
    var s, t := DaysToYmd(a), DaysToYmd(b);
    DaysToYmdCounts(a);
    DaysToYmdCounts(b);
    if Earlier(t, s) { EarlierCountsLess(t, s); }
  }
}
