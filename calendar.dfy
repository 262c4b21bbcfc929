/**
 * Calendar dates, points in time, and the `%Y-%m-%d` file names that daily
 * memory files carry. A date is a (year, month, day) triple of the proleptic
 * Gregorian calendar; an instant adds the microseconds elapsed since midnight
 * (Python's naive `datetime`).
 */
module Calendar {
  import opened Wrappers
  import opened Text

  datatype Date = Date(year: int, month: int, day: int)

  const MicrosPerDay: int := 86_400_000_000

  /** A naive `datetime`: a date and the time elapsed since its midnight. */
  datatype Instant = Instant(date: Date, micros: int)

  predicate IsLeap(y: int) {
    y % 4 == 0 && (y % 100 != 0 || y % 400 == 0)
  }

  function DaysInMonth(y: int, m: int): (n: int)
    ensures 28 <= n <= 31
  {
    if m == 2 then (if IsLeap(y) then 29 else 28)
    else if m == 4 || m == 6 || m == 9 || m == 11 then 30
    else 31
  }

  predicate ValidDate(d: Date) {
    1 <= d.month <= 12 && 1 <= d.day <= DaysInMonth(d.year, d.month)
  }

  predicate ValidInstant(t: Instant) {
    ValidDate(t.date) && 0 <= t.micros < MicrosPerDay
  }

  /** Chronological order of dates. */
  predicate Before(a: Date, b: Date) {
    a.year < b.year
    || (a.year == b.year && (a.month < b.month || (a.month == b.month && a.day < b.day)))
  }

  lemma BeforeTransitive(a: Date, b: Date, c: Date)
    requires Before(a, b) && Before(b, c)
    ensures Before(a, c)
  {
  }

  /** The midnight that starts date `d` lies strictly before instant `t`. */
  predicate MidnightBefore(d: Date, t: Instant) {
    Before(d, t.date) || (d == t.date && t.micros > 0)
  }

  function NextDay(d: Date): (r: Date)
    requires ValidDate(d)
    ensures ValidDate(r) && Before(d, r)
  {
    if d.day < DaysInMonth(d.year, d.month) then Date(d.year, d.month, d.day + 1)
    else if d.month < 12 then Date(d.year, d.month + 1, 1)
    else Date(d.year + 1, 1, 1)
  }

  function PrevDay(d: Date): (r: Date)
    requires ValidDate(d)
    ensures ValidDate(r) && Before(r, d)
  {
    if d.day > 1 then Date(d.year, d.month, d.day - 1)
    else if d.month > 1 then Date(d.year, d.month - 1, DaysInMonth(d.year, d.month - 1))
    else Date(d.year - 1, 12, 31)
  }

  /** `d + timedelta(days=k)` */
  function AddDays(d: Date, k: int): (r: Date)
    requires ValidDate(d)
    ensures ValidDate(r)
    decreases if k < 0 then -k else k
  {
    if k == 0 then d
    else if k > 0 then AddDays(NextDay(d), k - 1)
    else AddDays(PrevDay(d), k + 1)
  }

  /** Going back more days lands strictly earlier. */
  lemma {:induction false} AddDaysBackIsEarlier(d: Date, k: nat)
    requires ValidDate(d) && k > 0
    ensures Before(AddDays(d, -(k as int)), d)
    decreases k
  {
    if k > 1 {
      AddDaysBackIsEarlier(PrevDay(d), k - 1);
      BeforeTransitive(AddDays(PrevDay(d), -(k as int - 1)), PrevDay(d), d);
    }
  }

  /** Going back `a + b` days is going back `a` days, then `b` more. */
  lemma {:induction false} AddDaysBackCompose(d: Date, a: nat, b: nat)
    requires ValidDate(d)
    ensures AddDays(AddDays(d, -(a as int)), -(b as int)) == AddDays(d, -(a + b) as int)
    decreases a
  {
    if a > 0 {
      AddDaysBackCompose(PrevDay(d), a - 1, b);
    }
  }

  /** Of two dates `j` and `k` days back from the same date, the one further back is earlier. */
  lemma AddDaysBackMonotone(d: Date, j: nat, k: nat)
    requires ValidDate(d) && j < k
    ensures Before(AddDays(d, -(k as int)), AddDays(d, -(j as int)))
  {
    AddDaysBackCompose(d, j, k - j);
    AddDaysBackIsEarlier(AddDays(d, -(j as int)), k - j);
  }

  /** `t - timedelta(days=n)` */
  function MinusDays(t: Instant, n: int): (r: Instant)
    requires ValidInstant(t)
    ensures ValidInstant(r) && r.micros == t.micros
  {
    Instant(AddDays(t.date, -n), t.micros)
  }

  // ---------------------------------------------------------------------------
  // Day of the week (`date.weekday()`, Monday is 0)
  // ---------------------------------------------------------------------------

  function DaysBeforeYear(y: int): int {
    var p := y - 1;
    p * 365 + p / 4 - p / 100 + p / 400
  }

  function DaysBeforeMonth(y: int, m: int): int
    requires 1 <= m <= 12
  {
    var table := [0, 31, 59, 90, 120, 151, 181, 212, 243, 273, 304, 334];
    table[m - 1] + (if m > 2 && IsLeap(y) then 1 else 0)
  }

  /** `date.toordinal()`: 0001-01-01 is day 1. */
  function Ordinal(d: Date): int
    requires ValidDate(d)
  {
    DaysBeforeYear(d.year) + DaysBeforeMonth(d.year, d.month) + d.day
  }

  function Weekday(d: Date): (w: int)
    requires ValidDate(d)
    ensures 0 <= w < 7
  {
    (Ordinal(d) + 6) % 7
  }

  /** A year holds 365 days, one more when it is a leap year. */
  lemma YearLength(y: int)
    ensures DaysBeforeYear(y + 1) == DaysBeforeYear(y) + 365 + (if IsLeap(y) then 1 else 0)
  {
    var p := y;
    assert p / 4 - (p - 1) / 4 == (if p % 4 == 0 then 1 else 0);
    assert p / 100 - (p - 1) / 100 == (if p % 100 == 0 then 1 else 0);
    assert p / 400 - (p - 1) / 400 == (if p % 400 == 0 then 1 else 0);
  }

  /** The day before a date is the ordinal before it. */
  lemma PrevDayOrdinal(d: Date)
    requires ValidDate(d)
    ensures Ordinal(PrevDay(d)) == Ordinal(d) - 1
  {
    if d.day == 1 && d.month == 1 {
      YearLength(d.year - 1);
    }
  }

  /** Going back `k` days lowers the ordinal by `k`. */
  lemma {:induction false} AddDaysBackOrdinal(d: Date, k: nat)
    requires ValidDate(d)
    ensures Ordinal(AddDays(d, -(k as int))) == Ordinal(d) - k
    decreases k
  {
    if k > 0 {
      AddDaysBackOrdinal(PrevDay(d), k - 1);
      PrevDayOrdinal(d);
    }
  }

  /** Going back `k` days turns the weekday back by `k`, modulo a week. */
  lemma AddDaysBackWeekday(d: Date, k: nat)
    requires ValidDate(d)
    ensures Weekday(AddDays(d, -(k as int))) == (Weekday(d) - k) % 7
  {
    AddDaysBackOrdinal(d, k);
    var a := Ordinal(d) + 6;
    WeekShift(a % 7 - k, a / 7);
    assert a - k == a % 7 - k + 7 * (a / 7);
  }

  /** Adding whole weeks leaves the remainder modulo a week unchanged. */
  lemma WeekShift(x: int, q: int)
    ensures (x + 7 * q) % 7 == x % 7
  {
    var r := x % 7;
    assert x + 7 * q == 7 * (x / 7 + q) + r;
  }

  /** Going back `k` days and then forward `k` days returns to the same date. */
  lemma {:induction false} AddDaysBackForward(d: Date, k: nat)
    requires ValidDate(d)
    ensures AddDays(AddDays(d, -(k as int)), k) == d
    decreases k
  {
    if k > 0 {
      var y := AddDays(d, -(k as int - 1));
      AddDaysBackCompose(d, k - 1, 1);
      assert AddDays(d, -(k as int)) == PrevDay(y);
      assert NextDay(PrevDay(y)) == y;
      AddDaysBackForward(d, k - 1);
    }
  }

  // ---------------------------------------------------------------------------
  // `%Y-%m-%d` names
  // ---------------------------------------------------------------------------

  function Pad2(n: nat): (s: string)
    requires n < 100
    ensures |s| == 2 && IsDigit(s[0]) && IsDigit(s[1])
  {
    [DigitChar(n / 10), DigitChar(n % 10)]
  }

  function Pad4(n: nat): (s: string)
    requires n < 10000
    ensures |s| == 4
  {
    [DigitChar(n / 10 / 10 / 10), DigitChar(n / 10 / 10 % 10), DigitChar(n / 10 % 10), DigitChar(n % 10)]
  }

  /** `%Y`: four digits for the years a `datetime` can hold. */
  function YearText(y: int): string {
    if 0 <= y < 10000 then Pad4(y) else NatToString(if y < 0 then -y else y)
  }

  /** `d.strftime("%Y-%m-%d")` */
  function FormatDate(d: Date): string
    requires ValidDate(d)
  {
    YearText(d.year) + "-" + Pad2(d.month) + "-" + Pad2(d.day)
  }

  /** `t.strftime("%H:%M")` */
  function FormatHourMinute(t: Instant): string
    requires ValidInstant(t)
  {
    Pad2(t.micros / 3_600_000_000) + ":" + Pad2(t.micros / 60_000_000 % 60)
  }

  /** `t.strftime("%Y-%m-%d %H:%M")` */
  function FormatMinute(t: Instant): string
    requires ValidInstant(t)
  {
    FormatDate(t.date) + " " + FormatHourMinute(t)
  }

  /** `t.isoformat()` of a naive datetime: the fraction appears only when non-zero. */
  function FormatIso(t: Instant): string
    requires ValidInstant(t)
  {
    var us := t.micros % 1_000_000;
    FormatDate(t.date) + "T" + FormatHourMinute(t) + ":" + Pad2(t.micros / 1_000_000 % 60)
    + (if us == 0 then "" else "." + Pad2(us / 10000) + Pad2(us / 100 % 100) + Pad2(us % 100))
  }

  /** The month field of `%m`: `1[0-2]|0[1-9]|[1-9]`. */
  function MonthField(t: string): (r: Option<int>)
    ensures r.Some? ==> 1 <= r.value <= 12
  {
    if |t| == 1 && '1' <= t[0] <= '9' then Some(DigitValue(t[0]))
    else if |t| == 2 && IsDigit(t[0]) && IsDigit(t[1])
         && 1 <= 10 * DigitValue(t[0]) + DigitValue(t[1]) <= 12
    then Some(10 * DigitValue(t[0]) + DigitValue(t[1]))
    else None
  }

  /** The day field of `%d`: `3[01]|[12]\d|0[1-9]|[1-9]| [1-9]`. */
  function DayField(t: string): (r: Option<int>)
    ensures r.Some? ==> 1 <= r.value <= 31
  {
    if |t| == 1 && '1' <= t[0] <= '9' then Some(DigitValue(t[0]))
    else if |t| == 2 && t[0] == ' ' && '1' <= t[1] <= '9' then Some(DigitValue(t[1]))
    else if |t| == 2 && IsDigit(t[0]) && IsDigit(t[1])
         && 1 <= 10 * DigitValue(t[0]) + DigitValue(t[1]) <= 31
    then Some(10 * DigitValue(t[0]) + DigitValue(t[1]))
    else None
  }

  function YearField(t: string): int
    requires |t| == 4
  {
    1000 * DigitValue(t[0]) + 100 * DigitValue(t[1]) + 10 * DigitValue(t[2]) + DigitValue(t[3])
  }

  /**
   * `datetime.strptime(stem, "%Y-%m-%d")`, None where it raises `ValueError`:
   * four year digits (year 0 is out of range), a dash, a one- or two-character
   * month, a dash, then a day that must end the string and exist in that month.
   */
  function ParseDate(s: string): (r: Option<Date>)
    ensures r.Some? ==> ValidDate(r.value) && 1 <= r.value.year <= 9999
  {
    if |s| < 7 || !(IsDigit(s[0]) && IsDigit(s[1]) && IsDigit(s[2]) && IsDigit(s[3])) || s[4] != '-'
    then None
    else
      var split := if s[6] == '-' then 6 else 7;
      if split == 7 && (|s| < 8 || s[7] != '-') then None
      else
        var year := YearField(s[..4]);
        var month := MonthField(s[5..split]);
        var day := DayField(s[split + 1..]);
        if year < 1 || month.None? || day.None? || day.value > DaysInMonth(year, month.value)
        then None
        else Some(Date(year, month.value, day.value))
  }

  lemma Pad2Value(n: nat)
    requires n < 100
    ensures 10 * DigitValue(Pad2(n)[0]) + DigitValue(Pad2(n)[1]) == n
  {
  }

  lemma Pad4Value(n: nat)
    requires n < 10000
    ensures |Pad4(n)| == 4 && YearField(Pad4(n)) == n
    ensures IsDigit(Pad4(n)[0]) && IsDigit(Pad4(n)[1]) && IsDigit(Pad4(n)[2]) && IsDigit(Pad4(n)[3])
  {
    var q1 := n / 10;
    var q2 := q1 / 10;
    var q3 := q2 / 10;
    assert n == 10 * q1 + n % 10;
    assert q1 == 10 * q2 + q1 % 10;
    assert q2 == 10 * q3 + q2 % 10;
    assert q3 < 10;
  }

  /** Every date a `datetime` can hold is read back from its own file name. */
  lemma ParseFormatRoundTrip(d: Date)
    requires ValidDate(d) && 1 <= d.year <= 9999
    ensures ParseDate(FormatDate(d)) == Some(d)
  {
    var s := FormatDate(d);
    Pad4Value(d.year);
    Pad2Value(d.month);
    Pad2Value(d.day);
    assert s[..4] == Pad4(d.year);
    assert s[5..7] == Pad2(d.month);
    assert s[8..] == Pad2(d.day);
    assert s[6] != '-';
  }
}
