/** Day strings and the counter keys built from them. */
module DayKeys {
  import opened Civil

  // ---------- Rust's zero-padded integer formatting ----------

  function Digit(n: nat): char
    requires n < 10
  {
    (n + '0' as int) as char
  }

  function Decimal(n: nat): string {
    if n < 10 then [Digit(n)] else Decimal(n / 10) + [Digit(n % 10)]
  }

  function Pad(s: string, width: nat): string
    decreases width - |s|
  {
    if |s| >= width then s else Pad("0" + s, width)
  }

  /** `{n:0width}`: zero padding is sign-aware. */
  function Format(n: int, width: nat): string {
    if n < 0 then "-" + Pad(Decimal(-n), if width == 0 then 0 else width - 1) else Pad(Decimal(n), width)
  }

  function YearMonthDay(dt: Date): string {
    Format(dt.year, 4) + Format(dt.month, 2) + Format(dt.day, 2)
  }

  /** The day string of a day number: `YYYYMMDD`. */
  function DayString(days: int): string {
    YearMonthDay(CivilFromDays(days))
  }

  /** Seconds to whole days, rounding down. */
  function DayNumber(secs: int): int {
    secs / 86_400
  }

  /** A clock reading as whole seconds: Rust's `as i64` cuts the fraction off toward zero. */
  function Seconds(t: real): int {
    if t >= 0.0 then t.Floor else -((-t).Floor)
  }

  /** The day number of a clock reading. */
  function DayOf(t: real): int {
    DayNumber(Seconds(t))
  }

  /** From the epoch on, a reading lies inside its own day. */
  lemma {:induction false} DayBounds(t: real)
    requires t >= 0.0
    ensures 86_400 * DayOf(t) <= Seconds(t) < 86_400 * (DayOf(t) + 1)
    ensures (86_400 * DayOf(t)) as real <= t < (86_400 * (DayOf(t) + 1)) as real
  {
    var s := Seconds(t);
    assert s as real <= t < (s + 1) as real;
  }

  // ---------- The audit timestamp ----------

  function Layout(y: string, m: string, d: string, h: string, mi: string, s: string): string {
    y + "-" + m + "-" + d + "T" + h + ":" + mi + ":" + s + "Z"
  }

  function IsoNow(secs: nat): string {
    var dt := AuditDate(secs / 86_400);
    var rem := secs % 86_400;
    Layout(Format(dt.year, 4), Format(dt.month, 2), Format(dt.day, 2),
           Format(rem / 3600, 2), Format((rem % 3600) / 60, 2), Format(rem % 60, 2))
  }

  // ---------- Reading the digits back ----------

  predicate AllDigits(s: string) {
    forall i :: 0 <= i < |s| ==> '0' <= s[i] <= '9'
  }

  function Value(s: string): nat
    requires AllDigits(s)
  {
    if s == [] then 0 else 10 * Value(s[..|s| - 1]) + (s[|s| - 1] as int - '0' as int)
  }

  lemma {:induction false} DecimalValue(n: nat)
    ensures AllDigits(Decimal(n)) && Value(Decimal(n)) == n && |Decimal(n)| >= 1
  {
    if n < 10 {
      assert Decimal(n)[..0] == [];
    } else {
      DecimalValue(n / 10);
      var s := Decimal(n);
      assert s[..|s| - 1] == Decimal(n / 10);
    }
  }

  lemma {:induction false} LeadingZero(s: string)
    requires AllDigits(s)
    ensures AllDigits("0" + s) && Value("0" + s) == Value(s)
  {
    var z := "0" + s;
    assert forall i :: 0 <= i < |z| ==> z[i] == if i == 0 then '0' else s[i - 1];
    if s != [] {
      LeadingZero(s[..|s| - 1]);
      assert z[..|z| - 1] == "0" + s[..|s| - 1];
    } else {
      assert z[..0] == [];
    }
  }

  lemma {:induction false} PadValue(s: string, width: nat)
    requires AllDigits(s)
    ensures AllDigits(Pad(s, width)) && Value(Pad(s, width)) == Value(s)
    ensures |Pad(s, width)| == if |s| >= width then |s| else width
    decreases width - |s|
  {
    if |s| < width {
      LeadingZero(s);
      PadValue("0" + s, width);
    }
  }

  lemma {:induction false} FormatNat(n: nat, width: nat)
    ensures AllDigits(Format(n, width)) && Value(Format(n, width)) == n
    ensures |Format(n, width)| >= 1
  {
    DecimalValue(n);
    PadValue(Decimal(n), width);
  }

  lemma {:induction false} TwoDigits(n: nat)
    requires n < 100
    ensures AllDigits(Format(n, 2)) && |Format(n, 2)| == 2 && Value(Format(n, 2)) == n
  {
    DecimalValue(n);
    PadValue(Decimal(n), 2);
  }

  lemma {:induction false} FormatInjective(a: int, b: int, width: nat)
    requires Format(a, width) == Format(b, width)
    ensures a == b
  {
    Sign(a, width);
    Sign(b, width);
    var w := if width == 0 then 0 else width - 1;
    if a < 0 && b < 0 {
      assert ("-" + Pad(Decimal(-a), w))[1..] == Pad(Decimal(-a), w);
      assert ("-" + Pad(Decimal(-b), w))[1..] == Pad(Decimal(-b), w);
      PadInjective(-a, -b, w);
    } else if a >= 0 && b >= 0 {
      PadInjective(a, b, width);
    }
  }

  lemma {:induction false} PadInjective(a: nat, b: nat, width: nat)
    requires Pad(Decimal(a), width) == Pad(Decimal(b), width)
    ensures a == b
  {
    FormatNat(a, width);
    FormatNat(b, width);
  }

  lemma {:induction false} Sign(n: int, width: nat)
    ensures |Format(n, width)| >= 1
    ensures Format(n, width)[0] == '-' <==> n < 0
    ensures ':' !in Format(n, width)
  {
    if n < 0 { FormatNat(-n, if width == 0 then 0 else width - 1); } else { FormatNat(n, width); }
  }

  // ---------- Day strings ----------

  /** Distinct days have distinct day strings, and no day string contains a ':'. */
  lemma {:induction false} DayStringInjective(a: int, b: int)
    ensures DayString(a) == DayString(b) ==> a == b
    ensures ':' !in DayString(a)
  {
    CivilRoundTrip(a);
    CivilRoundTrip(b);
    var da, db := CivilFromDays(a), CivilFromDays(b);
    DateParts(da);
    DateParts(db);
    if DayString(a) == DayString(b) {
      FormatInjective(da.year, db.year, 4);
      FormatInjective(da.month, db.month, 2);
      FormatInjective(da.day, db.day, 2);
    }
  }

  /** The last four characters are month and day; the rest is the year. */
  lemma {:induction false} DateParts(dt: Date)
    requires ValidDate(dt)
    ensures var s := YearMonthDay(dt);
      && |s| >= 4 && s[..|s| - 4] == Format(dt.year, 4)
      && s[|s| - 4..|s| - 2] == Format(dt.month, 2) && s[|s| - 2..] == Format(dt.day, 2)
      && ':' !in s
  {
    TwoDigits(dt.month);
    TwoDigits(dt.day);
    Sign(dt.year, 4);
  }

  /** From year 0 on the digits of a day string read as the year, with at least four digits, the month and the day
      of the calendar date. */
  lemma {:induction false} DayStringReads(days: int)
    requires CivilFromDays(days).year >= 0
    ensures var s, dt := DayString(days), CivilFromDays(days);
      && |s| >= 8 && AllDigits(s[..|s| - 4]) && AllDigits(s[|s| - 4..|s| - 2]) && AllDigits(s[|s| - 2..])
      && Value(s[..|s| - 4]) == dt.year && Value(s[|s| - 4..|s| - 2]) == dt.month && Value(s[|s| - 2..]) == dt.day
  {
    hide CivilFromDays, Value, AllDigits, Format, YearMonthDay;
    var dt := CivilFromDays(days);
    CivilRoundTrip(days);
    DateParts(dt);
    YearDigits(dt.year);
    TwoDigits(dt.month);
    TwoDigits(dt.day);
    hide ValidDate;
  }

  lemma {:induction false} YearDigits(year: nat)
    ensures AllDigits(Format(year, 4)) && Value(Format(year, 4)) == year && |Format(year, 4)| >= 4
  {
    DecimalValue(year);
    PadValue(Decimal(year), 4);
  }

  /** The audit timestamp, with its own arithmetic, carries the same date digits as the day string of the same
      second, and its clock part counts the seconds of that day. */
  lemma {:induction false} IsoNowMatchesDayString(secs: nat)
    ensures var s := IsoNow(secs); var n := |s| - 16;
      && n >= 1
      && s[..n] + s[n + 1..n + 3] + s[n + 4..n + 6] == DayString(DayNumber(secs))
      && ClockReads(s[n + 7..n + 9], s[n + 10..n + 12], s[n + 13..n + 15], secs - 86_400 * DayNumber(secs))
  {
    hide CivilFromDays, AuditDate, Value, AllDigits, Format, ClockReads;
    var days, rem := secs / 86_400, secs % 86_400;
    CivilRoundTrip(days);
    AuditDateAgrees(days);
    var dt := CivilFromDays(days);
    var h, mi, sec := Format(rem / 3600, 2), Format((rem % 3600) / 60, 2), Format(rem % 60, 2);
    TwoDigits(dt.month);
    TwoDigits(dt.day);
    Sign(dt.year, 4);
    ClockParts(rem);
    hide ValidDate;
    IsoLayout(Format(dt.year, 4), Format(dt.month, 2), Format(dt.day, 2), h, mi, sec);
  }

  /** Two digits each for hour, minute and second, counting to `rem` seconds. */
  predicate ClockReads(h: string, mi: string, s: string, rem: int) {
    && AllDigits(h) && AllDigits(mi) && AllDigits(s) && |h| == |mi| == |s| == 2
    && Value(h) < 24 && Value(mi) < 60 && Value(s) < 60
    && rem == 3600 * Value(h) + 60 * Value(mi) + Value(s)
  }

  lemma {:induction false} IsoLayout(y: string, m: string, d: string, h: string, mi: string, s: string)
    requires |m| == |d| == |h| == |mi| == |s| == 2
    ensures var t := Layout(y, m, d, h, mi, s); var n := |y|;
      && |t| == n + 16
      && t[..n] + t[n + 1..n + 3] + t[n + 4..n + 6] == y + m + d
      && t[n + 7..n + 9] == h && t[n + 10..n + 12] == mi && t[n + 13..n + 15] == s
  {
    var t, n := Layout(y, m, d, h, mi, s), |y|;
    assert t[..n] == y;
    assert t[n + 1..n + 3] == m;
    assert t[n + 4..n + 6] == d;
  }

  lemma {:induction false} ClockParts(rem: nat)
    requires rem < 86_400
    ensures ClockReads(Format(rem / 3600, 2), Format((rem % 3600) / 60, 2), Format(rem % 60, 2), rem)
    ensures |Format(rem / 3600, 2)| == |Format((rem % 3600) / 60, 2)| == |Format(rem % 60, 2)| == 2
  {
    ClockSplit(rem);
    TwoDigits(rem / 3600);
    TwoDigits((rem % 3600) / 60);
    TwoDigits(rem % 60);
    hide Format, Value, AllDigits;
  }

  lemma {:induction false} ClockSplit(rem: nat)
    requires rem < 86_400
    ensures rem / 3600 < 24 && (rem % 3600) / 60 < 60
    ensures rem == 3600 * (rem / 3600) + 60 * ((rem % 3600) / 60) + rem % 60
  {
    var h, r := rem / 3600, rem % 3600;
    assert rem == 3600 * h + r && r == 60 * (r / 60) + r % 60;
    assert rem % 60 == r % 60;
  }

  // ---------- Counter keys ----------

  datatype Kind = ClientTokens | ClientRequests | ProviderTokens | ProviderRequests | ModelTokens

  function Prefix(kind: Kind): string {
    match kind
    case ClientTokens => "fwllm:c:tokens:"
    case ClientRequests => "fwllm:c:req:"
    case ProviderTokens => "fwllm:p:tokens:"
    case ProviderRequests => "fwllm:p:req:"
    case ModelTokens => "fwllm:m:tokens:"
  }

  /** The counter key of one daily bucket. */
  function BucketKey(kind: Kind, name: string, days: int): string {
    Prefix(kind) + name + ":" + DayString(days)
  }

  function ReservationKey(id: string): string {
    "fwllm:rsv:" + id
  }

  /** A last ':' splits a string in one way only. */
  lemma {:induction false} SplitAtLastColon(n: string, d: string, n': string, d': string)
    requires ':' !in d && ':' !in d'
    requires n + ":" + d == n' + ":" + d'
    ensures n == n' && d == d'
  {
    LaterColon(n, d, n', d');
    LaterColon(n', d', n, d);
    var s, s' := n + ":" + d, n' + ":" + d';
    assert s[..|n|] == n && s'[..|n'|] == n';
    assert s[|n| + 1..] == d && s'[|n'| + 1..] == d';
  }

  lemma {:induction false} LaterColon(n: string, d: string, n': string, d': string)
    requires ':' !in d
    ensures n + ":" + d == n' + ":" + d' ==> |n'| <= |n|
  {
    var s, s' := n + ":" + d, n' + ":" + d';
    if |n| < |n'| && |s| == |s'| {
      assert s'[|n'|] == ':';
      assert s[|n'|] == d[|n'| - |n| - 1];
    }
  }

  lemma {:induction false} PrefixesDiffer(k: Kind, k': Kind, r: string, r': string)
    requires Prefix(k) + r == Prefix(k') + r'
    ensures k == k' && r == r'
  {
    var s, s' := Prefix(k) + r, Prefix(k') + r';
    assert s[6] == Prefix(k)[6] && s'[6] == Prefix(k')[6];
    assert s[8] == Prefix(k)[8] && s'[8] == Prefix(k')[8];
    assert s[|Prefix(k)|..] == r && s'[|Prefix(k')|..] == r';
  }

  /** Keys of different buckets never collide, whatever characters the names contain. */
  lemma {:induction false} BucketKeysDistinct(k: Kind, name: string, day: int, k': Kind, name': string, day': int)
    ensures BucketKey(k, name, day) == BucketKey(k', name', day') <==> k == k' && name == name' && day == day'
  {
    DayStringInjective(day, day');
    DayStringInjective(day', day);
    KeyParts(k, name, DayString(day), k', name', DayString(day'));
  }

  lemma {:induction false} KeyParts(k: Kind, name: string, d: string, k': Kind, name': string, d': string)
    requires ':' !in d && ':' !in d'
    ensures Prefix(k) + name + ":" + d == Prefix(k') + name' + ":" + d' ==> k == k' && name == name' && d == d'
  {
    var r, r' := name + ":" + d, name' + ":" + d';
    assert Prefix(k) + name + ":" + d == Prefix(k) + r;
    assert Prefix(k') + name' + ":" + d' == Prefix(k') + r';
    if Prefix(k) + r == Prefix(k') + r' {
      PrefixesDiffer(k, k', r, r');
      SplitAtLastColon(name, d, name', d');
    }
  }

  /** A reservation key is no bucket key, and distinct ids have distinct keys. */
  lemma {:induction false} ReservationKeysDistinct(id: string, id': string, k: Kind, name: string, day: int)
    ensures ReservationKey(id) != BucketKey(k, name, day)
    ensures ReservationKey(id) == ReservationKey(id') <==> id == id'
  {
    var s, s' := ReservationKey(id), ReservationKey(id');
    assert s[10..] == id && s'[10..] == id';
    assert s[6] == 'r' && BucketKey(k, name, day)[6] == Prefix(k)[6];
  }
}
