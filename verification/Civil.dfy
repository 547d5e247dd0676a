/** The calendar arithmetic behind every daily bucket: the civil-from-days computation, checked
    against the leap-year rule (RFC 3339, Appendix C) and the month lengths (RFC 3339, section 5.7). */
module Civil {

  datatype Date = Date(year: int, month: int, day: int)

  // ---------- The calendar, from the standard ----------

  predicate IsLeap(y: int) {
    y % 4 == 0 && (y % 100 != 0 || y % 400 == 0)
  }

  function DaysInMonth(y: int, m: int): int {
    if m == 2 then (if IsLeap(y) then 29 else 28)
    else if m == 4 || m == 6 || m == 9 || m == 11 then 30
    else 31
  }

  predicate ValidDate(dt: Date) {
    1 <= dt.month <= 12 && 1 <= dt.day <= DaysInMonth(dt.year, dt.month)
  }

  /** The calendar date that follows `dt`. */
  function NextDate(dt: Date): Date {
    if dt.day < DaysInMonth(dt.year, dt.month) then dt.(day := dt.day + 1)
    else if dt.month < 12 then Date(dt.year, dt.month + 1, 1)
    else Date(dt.year + 1, 1, 1)
  }

  // ---------- The computation, as the gateway writes it ----------

  const ERA := 146_097

  function YearOfEra(doe: int): int {
    (doe - doe / 1460 + doe / 36524 - doe / 146_096) / 365
  }

  function MonthIndex(doy: int): int {
    (5 * doy + 2) / 153
  }

  function CivilFromDays(days: int): Date {
    var z := days + 719_468;
    var era := z / ERA;
    var doe := z % ERA;
    var yoe := YearOfEra(doe);
    var y := yoe + era * 400;
    var doy := doe - (365 * yoe + yoe / 4 - yoe / 100);
    var mp := MonthIndex(doy);
    var d := doy - (153 * mp + 2) / 5 + 1;
    var m := if mp < 10 then mp + 3 else mp - 9;
    var year := if m <= 2 then y + 1 else y;
    Date(year, m, d)
  }

  /** Division and remainder toward zero. */
  function Quotient(a: int, b: int): int
    requires b > 0
  {
    if a >= 0 then a / b else -((-a) / b)
  }

  function Remainder(a: int, b: int): int
    requires b > 0
  {
    a - b * Quotient(a, b)
  }

  /** The audit log's copy of the computation, which divides toward zero throughout. */
  function AuditDate(days: int): Date {
    var z := days + 719_468;
    AuditInEra(Quotient(z, 146_097), Remainder(z, 146_097))
  }

  function AuditInEra(era: int, doe: int): Date {
    var yoe := Quotient(doe - Quotient(doe, 1460) + Quotient(doe, 36_524) - Quotient(doe, 146_096), 365);
    var y := yoe + era * 400;
    var doy := doe - (365 * yoe + Quotient(yoe, 4) - Quotient(yoe, 100));
    var mp := Quotient(5 * doy + 2, 153);
    var d := doy - Quotient(153 * mp + 2, 5) + 1;
    var m := if mp < 10 then mp + 3 else mp - 9;
    var year := if m <= 2 then y + 1 else y;
    Date(year, m, d)
  }

  // ---------- The inverse: counting days from the leap rule and the month lengths ----------

  /** Days from 1 January of year 1 to 1 January of year `y`. */
  function DaysBeforeYear(y: int): int {
    365 * (y - 1) + (y - 1) / 4 - (y - 1) / 100 + (y - 1) / 400
  }

  function DaysBeforeMonth(y: int, m: int): int
    decreases m
  {
    if m <= 1 then 0 else DaysBeforeMonth(y, m - 1) + DaysInMonth(y, m - 1)
  }

  /** Days from 1 January 1970. */
  function DaysFromCivil(dt: Date): int {
    DaysBeforeYear(dt.year) + DaysBeforeMonth(dt.year, dt.month) + dt.day - 719_163
  }

  // ---------- Year of era ----------

  /** First day, within an era, of the `k`-th March-based year. */
  function MarchYearStart(k: int): int {
    365 * k + k / 4 - k / 100
  }

  /** Inside one century `c`, a day splits into 4-year blocks of 1461 days; the formula then picks
      the block `b` and the year within it. */
  lemma {:induction false} YearOfEraInCentury(c: int, b: int, s: int)
    requires 0 <= c <= 3 && 0 <= b <= 24 && 0 <= s <= 1460 && 1461 * b + s < 36524
    ensures YearOfEra(36524 * c + 1461 * b + s) == 100 * c + 4 * b + (if s == 1460 then 3 else s / 365)
  {
    var doe := 36524 * c + 1461 * b + s;
    var e := if s >= 1460 - 24 * c - b then 1 else 0;
    assert doe / 36524 == c && doe / 146_096 == 0;
    assert doe == 1460 * (25 * c + b + e) + (24 * c + b + s - 1460 * e);
    assert doe / 1460 == 25 * c + b + e;
    assert doe - doe / 1460 + doe / 36524 - doe / 146_096 == 365 * (100 * c + 4 * b) + s - e;
    assert (s - e) / 365 == if s == 1460 then 3 else s / 365;
  }

  /** The start of the year that the formula picks, and that year's length. */
  lemma {:induction false} YearStart(c: int, b: int, x: int)
    requires 0 <= c <= 3 && 0 <= b <= 24 && 0 <= x <= 3
    ensures 0 <= 100 * c + 4 * b + x <= 399
    ensures MarchYearStart(100 * c + 4 * b + x) == 36524 * c + 1461 * b + 365 * x
    ensures x == 3 && b < 24 ==> IsLeap(100 * c + 4 * b + x + 1)
  {
    var k := 100 * c + 4 * b + x;
    assert k / 4 == 25 * c + b;
    assert k / 100 == c;
  }

  lemma {:induction false} CenturyParts(doe: int) returns (c: int, b: int, s: int)
    requires 0 <= doe < ERA - 1
    ensures 0 <= c <= 3 && 0 <= b <= 24 && 0 <= s <= 1460 && 1461 * b + s < 36524
    ensures doe == 36524 * c + 1461 * b + s
  {
    c := doe / 36524;
    var r := doe - 36524 * c;
    b := r / 1461;
    s := r - 1461 * b;
  }

  lemma {:induction false} YearOfEraBrackets(doe: int) returns (yoe: int, doy: int)
    requires 0 <= doe < ERA
    ensures yoe == YearOfEra(doe) && 0 <= yoe <= 399
    ensures doy == doe - MarchYearStart(yoe) && 0 <= doy <= 365
    ensures doy == 365 ==> IsLeap(yoe + 1)
  {
    if doe == ERA - 1 {
      yoe, doy := 399, 365;
    } else {
      var c, b, s := CenturyParts(doe);
      var x := if s == 1460 then 3 else s / 365;
      YearOfEraInCentury(c, b, s);
      YearStart(c, b, x);
      yoe, doy := 100 * c + 4 * b + x, s - 365 * x;
    }
  }

  // ---------- Month and day of month ----------

  /** March-based month `mp` of the day `doy`, with its first day; the last day of February exists
      only in a leap year. */
  lemma {:induction false} MonthOfYear(doy: int)
    requires 0 <= doy <= 365
    ensures 0 <= MonthIndex(doy) <= 11
    ensures (153 * MonthIndex(doy) + 2) / 5 <= doy
    ensures MonthIndex(doy) < 11 ==> doy < (153 * MonthIndex(doy) + 155) / 5
  {
  }

  /** Days before a month, for a January-based and for a March-based year. */
  lemma {:induction false} DaysBeforeMonthClosed(y: int, m: int)
    requires 1 <= m <= 12
    ensures DaysBeforeMonth(y, m) ==
      (if m <= 2 then 31 * (m - 1)
       else 59 + (if IsLeap(y) then 1 else 0) + (153 * (m - 3) + 2) / 5)
  {
    if m > 1 { DaysBeforeMonthClosed(y, m - 1); }
  }

  lemma {:induction false} DivStep(n: int, k: int)
    requires k == 4 || k == 100 || k == 400
    ensures n / k == (n - 1) / k + (if n % k == 0 then 1 else 0)
  {
  }

  lemma {:induction false} DaysBeforeYearStep(y: int)
    ensures DaysBeforeYear(y + 1) == DaysBeforeYear(y) + 365 + (if IsLeap(y) then 1 else 0)
  {
    DivStep(y, 4);
    DivStep(y, 100);
    DivStep(y, 400);
    MultiplesNest(y);
  }

  lemma {:induction false} MultiplesNest(y: int)
    ensures y % 100 == 0 ==> y % 4 == 0
    ensures y % 400 == 0 ==> y % 100 == 0
  {
    var q := y / 100;
    assert y % 100 == 0 ==> y == 4 * (25 * q);
    var r := y / 400;
    assert y % 400 == 0 ==> y == 100 * (4 * r);
  }

  lemma {:induction false} DaysBeforeEraYear(era: int, yoe: int)
    requires 0 <= yoe <= 399
    ensures DaysBeforeYear(yoe + era * 400 + 1) == era * ERA + MarchYearStart(yoe)
  {
    var y := yoe + era * 400;
    assert y / 4 == yoe / 4 + 100 * era;
    assert y / 100 == yoe / 100 + 4 * era;
    assert y / 400 == era;
  }

  lemma {:induction false} ModShift(n: int, k: int, q: int)
    requires k == 4 || k == 100 || k == 400
    ensures (n + k * q) % k == n % k
  {
  }

  lemma {:induction false} LeapInEra(era: int, yoe: int)
    ensures IsLeap(yoe + era * 400) == IsLeap(yoe)
  {
    ModShift(yoe, 4, 100 * era);
    ModShift(yoe, 100, 4 * era);
    ModShift(yoe, 400, era);
  }

  /** A date written as era, March-based year and day of that year. */
  function MarchBased(era: int, yoe: int, doy: int): Date {
    var mp := MonthIndex(doy);
    var m := if mp < 10 then mp + 3 else mp - 9;
    var y := yoe + era * 400;
    Date(if m <= 2 then y + 1 else y, m, doy - (153 * mp + 2) / 5 + 1)
  }

  /** The formula's month boundaries are the calendar's month lengths. */
  lemma {:induction false} MonthLength(y: int, mp: int)
    requires 0 <= mp <= 10
    ensures (153 * mp + 155) / 5 - (153 * mp + 2) / 5 == DaysInMonth(y, if mp < 10 then mp + 3 else mp - 9)
  {
  }

  lemma {:induction false} MarchDate(era: int, yoe: int, doy: int)
    requires 0 <= yoe <= 399 && 0 <= doy <= 365 && (doy == 365 ==> IsLeap(yoe + 1))
    ensures ValidDate(MarchBased(era, yoe, doy))
    ensures DaysFromCivil(MarchBased(era, yoe, doy)) == era * ERA + MarchYearStart(yoe) + doy - 719_468
  {
    var dt := MarchBased(era, yoe, doy);
    var mp := MonthIndex(doy);
    MonthOfYear(doy);
    if mp <= 10 { MonthLength(dt.year, mp); }
    LeapInEra(era, yoe + 1);
    DaysBeforeEraYear(era, yoe);
    DaysBeforeYearStep(yoe + era * 400);
    DaysBeforeMonthClosed(dt.year, dt.month);
  }

  // ---------- Main results ----------

  /** Every day number, past or future, gets a real calendar date, and counting days back from that
      date gives the day number again. */
  lemma {:induction false} CivilRoundTrip(days: int)
    ensures ValidDate(CivilFromDays(days))
    ensures DaysFromCivil(CivilFromDays(days)) == days
  {
    var z := days + 719_468;
    var era, doe := z / ERA, z % ERA;
    var yoe, doy := YearOfEraBrackets(doe);
    hide DaysFromCivil, ValidDate, YearOfEra, MonthIndex, CivilFromDays, MarchBased;
    CivilInEra(days, yoe, doy);
    MarchDate(era, yoe, doy);
  }

  lemma {:induction false} TowardZero(a: int, b: int)
    requires a >= 0 && b > 0
    ensures Quotient(a, b) == a / b && Remainder(a, b) == a % b
  {
  }

  lemma {:induction false} AuditYear(doe: int)
    requires 0 <= doe < ERA
    ensures Quotient(doe - Quotient(doe, 1460) + Quotient(doe, 36_524) - Quotient(doe, 146_096), 365) == YearOfEra(doe)
  {
    assert doe - doe / 1460 + doe / 36_524 - doe / 146_096 >= 0;
  }

  lemma {:induction false} AuditMonth(doy: int)
    requires 0 <= doy <= 365
    ensures Quotient(5 * doy + 2, 153) == MonthIndex(doy) >= 0
    ensures Quotient(153 * MonthIndex(doy) + 2, 5) == (153 * MonthIndex(doy) + 2) / 5
  {
  }

  /** The audit log's divisions toward zero give the same date from 1 March of year 0 on, hence for every reading
      of its unsigned clock. */
  lemma {:induction false} AuditDateAgrees(days: int)
    requires days >= -719_468
    ensures AuditDate(days) == CivilFromDays(days)
  {
    var z := days + 719_468;
    TowardZero(z, ERA);
    hide Quotient, Remainder, AuditInEra, CivilFromDays, YearOfEra;
    var yoe, doy := YearOfEraBrackets(z % ERA);
    AuditInEraAgrees(z / ERA, z % ERA, yoe, doy);
    CivilInEra(days, yoe, doy);
  }

  lemma {:induction false} AuditInEraAgrees(era: int, doe: int, yoe: int, doy: int)
    requires 0 <= doe < ERA && yoe == YearOfEra(doe) && yoe >= 0 && doy == doe - MarchYearStart(yoe) && 0 <= doy <= 365
    ensures AuditInEra(era, doe) == MarchBased(era, yoe, doy)
  {
    AuditYear(doe);
    TowardZero(yoe, 4);
    TowardZero(yoe, 100);
    AuditMonth(doy);
    hide Quotient, YearOfEra, MonthIndex;
  }

  lemma {:induction false} CivilInEra(days: int, yoe: int, doy: int)
    requires var doe := (days + 719_468) % ERA; yoe == YearOfEra(doe) && doy == doe - MarchYearStart(yoe)
    ensures CivilFromDays(days) == MarchBased((days + 719_468) / ERA, yoe, doy)
  {
    hide YearOfEra, MonthIndex;
  }

  lemma {:induction false} NextDateCountsOne(dt: Date)
    requires ValidDate(dt)
    ensures ValidDate(NextDate(dt)) && DaysFromCivil(NextDate(dt)) == DaysFromCivil(dt) + 1
  {
    DaysBeforeMonthClosed(dt.year, dt.month);
    if dt.month < 12 { DaysBeforeMonthClosed(dt.year, dt.month + 1); }
    DaysBeforeYearStep(dt.year);
    assert DaysBeforeMonth(dt.year + 1, 1) == 0;
    hide DaysBeforeYear, DaysBeforeMonth, IsLeap;
  }

  /** No two dates share a day count. */
  lemma {:induction false} DayCountInjective(a: Date, b: Date)
    requires ValidDate(a) && ValidDate(b) && DaysFromCivil(a) == DaysFromCivil(b)
    ensures a == b
  {
    if a.year < b.year { YearsOrdered(a, b); }
    else if b.year < a.year { YearsOrdered(b, a); }
    else if a.month < b.month { MonthsOrdered(a.year, a.month, b.month); }
    else if b.month < a.month { MonthsOrdered(a.year, b.month, a.month); }
  }

  lemma {:induction false} YearsOrdered(a: Date, b: Date)
    requires ValidDate(a) && ValidDate(b) && a.year < b.year
    ensures DaysFromCivil(a) < DaysFromCivil(b)
  {
    DaysBeforeYearStep(a.year);
    DaysBeforeMonthClosed(a.year, a.month);
    DaysBeforeMonthClosed(b.year, b.month);
    YearStartsOrdered(a.year + 1, b.year);
  }

  lemma {:induction false} YearStartsOrdered(y: int, y': int)
    requires y <= y'
    ensures DaysBeforeYear(y) <= DaysBeforeYear(y')
    decreases y' - y
  {
    if y < y' { DaysBeforeYearStep(y); YearStartsOrdered(y + 1, y'); }
  }

  lemma {:induction false} MonthsOrdered(y: int, m: int, m': int)
    requires 1 <= m < m' <= 12
    ensures DaysBeforeMonth(y, m) + DaysInMonth(y, m) <= DaysBeforeMonth(y, m')
    decreases m'
  {
    if m + 1 < m' { MonthsOrdered(y, m, m' - 1); }
  }

  /** The computation inverts the day count on every valid date: together with `CivilRoundTrip` it is
      a bijection between the integers and the proleptic Gregorian dates. */
  lemma {:induction false} CivilIsInverse(dt: Date)
    requires ValidDate(dt)
    ensures CivilFromDays(DaysFromCivil(dt)) == dt
  {
    CivilRoundTrip(DaysFromCivil(dt));
    DayCountInjective(CivilFromDays(DaysFromCivil(dt)), dt);
  }

  lemma {:induction false} EpochDate()
    ensures CivilFromDays(0) == Date(1970, 1, 1)
  {
    assert 719_468 / ERA == 4 && 719_468 % ERA == 135_080;
    assert YearOfEra(135_080) == 369 && 135_080 - MarchYearStart(369) == 306 && MonthIndex(306) == 10;
    hide YearOfEra, MonthIndex;
    CivilInEra(0, 369, 306);
  }

  /** Equal day counts of valid dates, with the count given. */
  lemma {:induction false} CivilAt(dt: Date, days: int)
    requires ValidDate(dt) && DaysFromCivil(dt) == days
    ensures CivilFromDays(days) == dt
  {
    CivilIsInverse(dt);
  }

  /** Day 0 is 1 January 1970 and each further day is the next calendar date, so the two facts fix the
      computation on every day number. */
  lemma {:induction false} CivilFollowsCalendar(days: int)
    ensures CivilFromDays(0) == Date(1970, 1, 1)
    ensures CivilFromDays(days + 1) == NextDate(CivilFromDays(days))
  {
    EpochDate();
    NextDay(CivilFromDays(days), days);
  }

  lemma {:induction false} NextDay(dt: Date, days: int)
    requires dt == CivilFromDays(days)
    ensures CivilFromDays(days + 1) == NextDate(dt)
  {
    CivilRoundTrip(days);
    NextDateCountsOne(dt);
    CivilAt(NextDate(dt), days + 1);
  }
}
