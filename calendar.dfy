/**
 * Calendar arithmetic on the local fields of a `Date`: the leap-year rule, the
 * month-length table, day/month/year addition, truncation to the start of a
 * period, same-day comparison and age in whole years.
 *
 * Rolling an out-of-range day into a neighbouring month (what the host does
 * inside `setDate` and `setFullYear`) is modelled with the library's own month
 * table, so the whole model uses one calendar: the `year % 4` one.
 */
module Calendar {
  import opened Wrappers
  import opened JsSemantics

  /** The local fields of a `Date`: `getFullYear()`, `getMonth()` (zero-based),
      `getDate()`, `getHours()`, `getMinutes()`, `getSeconds()`, `getMilliseconds()`. */
  datatype DateTime = DateTime(year: int, month: int, day: int, hour: int, minute: int, second: int, ms: int)

  /** The one error the library throws: "month is out of bounds". */
  datatype CalendarError = MonthOutOfBounds

  const MsPerHour := 3600000
  const MsPerDay := 86400000

  /** `Date.isLeapYear(year)`: `Math.trunc(year) % 4 === 0`, with no century rule. */
  predicate IsLeapYear(year: int) {
    JsRem(year, 4) == 0
  }

  /** For integer years the JavaScript remainder test is divisibility by 4. */
  lemma LeapYearIsDivisibleByFour(year: int)
    ensures IsLeapYear(year) <==> year % 4 == 0
  {
    if year < 0 {
      assert JsRem(year, 4) == -((-year) % 4);
      assert (-year) % 4 == 0 <==> year % 4 == 0;
    }
  }

  /** `Date.daysInMonth(year, month)`: the fixed month table; throws outside 0..11. */
  function DaysInMonth(year: int, month: int): (r: Result<int, CalendarError>)
    ensures r.Success? <==> 0 <= month <= 11
    ensures r.Failure? ==> r.error == MonthOutOfBounds
    ensures r.Success? ==> 28 <= r.value <= 31
    ensures r.Success? && month == 1 ==> (r.value == 29 <==> IsLeapYear(year))
    ensures r.Success? && month != 1 ==> (r.value == 30 <==> month in {3, 5, 8, 10})
    ensures r.Success? && month in {0, 2, 4, 6, 7, 9, 11} ==> r.value == 31
    ensures r.Success? && month == 1 && !IsLeapYear(year) ==> r.value == 28
  {
    if month < 0 || month > 11 then Failure(MonthOutOfBounds)
    else Success([31, if IsLeapYear(year) then 29 else 28, 31, 30, 31, 30, 31, 31, 30, 31, 30, 31][month])
  }

  /** The month length for a month known to be in range. */
  function MonthLength(year: int, month: int): (n: int)
    requires 0 <= month <= 11
    ensures 28 <= n <= 31
  {
    DaysInMonth(year, month).value
  }

  predicate ValidDate(year: int, month: int, day: int) {
    0 <= month <= 11 && 1 <= day <= MonthLength(year, month)
  }

  predicate ValidTime(hour: int, minute: int, second: int, ms: int) {
    0 <= hour < 24 && 0 <= minute < 60 && 0 <= second < 60 && 0 <= ms < 1000
  }

  /** The fields a host `Date` reports always satisfy this. */
  predicate Valid(d: DateTime) {
    ValidDate(d.year, d.month, d.day) && ValidTime(d.hour, d.minute, d.second, d.ms)
  }

  // ---------------------------------------------------------------------------
  // Day numbers: the specification of day rollover

  /** Days from 1 January of year 0 to 1 January of `year` (negative before year 0). */
  function DaysBeforeYear(year: int): int {
    365 * year + (year + 3) / 4
  }

  /** Days of `year` before the first day of `month`; `month == 12` gives the year's length. */
  function DaysBeforeMonth(year: int, month: int): (n: int)
    requires 0 <= month <= 12
    ensures 28 * month <= n <= 31 * month
  {
    if month == 0 then 0 else DaysBeforeMonth(year, month - 1) + MonthLength(year, month - 1)
  }

  /** The day number of (year, month, day); `day` may lie outside the month. */
  function Ordinal(year: int, month: int, day: int): int
    requires 0 <= month <= 11
  {
    DaysBeforeYear(year) + DaysBeforeMonth(year, month) + day - 1
  }

  /** The twelve month lengths add up to 366 in a leap year and 365 otherwise. */
  lemma YearLength(year: int)
    ensures DaysBeforeMonth(year, 12) == if IsLeapYear(year) then 366 else 365
  {
    var leap := if IsLeapYear(year) then 1 else 0;
    assert DaysBeforeMonth(year, 1) == 31;
    assert DaysBeforeMonth(year, 2) == 59 + leap;
    assert DaysBeforeMonth(year, 3) == 90 + leap;
    assert DaysBeforeMonth(year, 4) == 120 + leap;
    assert DaysBeforeMonth(year, 5) == 151 + leap;
    assert DaysBeforeMonth(year, 6) == 181 + leap;
    assert DaysBeforeMonth(year, 7) == 212 + leap;
    assert DaysBeforeMonth(year, 8) == 243 + leap;
    assert DaysBeforeMonth(year, 9) == 273 + leap;
    assert DaysBeforeMonth(year, 10) == 304 + leap;
    assert DaysBeforeMonth(year, 11) == 334 + leap;
  }

  /** The year-start day numbers step by the year's length. */
  lemma NextYear(year: int)
    ensures DaysBeforeYear(year + 1) == DaysBeforeYear(year) + DaysBeforeMonth(year, 12)
  {
    YearLength(year);
    LeapYearIsDivisibleByFour(year);
    assert (year + 4) / 4 == (year + 3) / 4 + (if year % 4 == 0 then 1 else 0);
  }

  lemma DaysBeforeYearMonotone(a: int, b: int)
    requires a <= b
    ensures DaysBeforeYear(a) <= DaysBeforeYear(b)
  {
    assert (a + 3) / 4 <= (b + 3) / 4;
  }

  lemma {:induction false} DaysBeforeMonthMonotone(year: int, a: int, b: int)
    requires 0 <= a <= b <= 12
    ensures DaysBeforeMonth(year, a) <= DaysBeforeMonth(year, b)
    decreases b
  {
    if a < b {
      DaysBeforeMonthMonotone(year, a, b - 1);
    }
  }

  /** A valid date's day number lies within its year and within its month. */
  lemma OrdinalBounds(year: int, month: int, day: int)
    requires ValidDate(year, month, day)
    ensures DaysBeforeYear(year) <= Ordinal(year, month, day) < DaysBeforeYear(year + 1)
    ensures DaysBeforeMonth(year, month) <= DaysBeforeMonth(year, month) + day - 1 < DaysBeforeMonth(year, month + 1)
  {
    DaysBeforeMonthMonotone(year, month + 1, 12);
    NextYear(year);
  }

  /** Distinct valid dates have distinct day numbers. */
  lemma OrdinalInjective(y1: int, m1: int, d1: int, y2: int, m2: int, d2: int)
    requires ValidDate(y1, m1, d1) && ValidDate(y2, m2, d2)
    requires Ordinal(y1, m1, d1) == Ordinal(y2, m2, d2)
    ensures y1 == y2 && m1 == m2 && d1 == d2
  {
    OrdinalSameYear(y1, m1, d1, y2, m2, d2);
    OrdinalSameMonth(y1, m1, d1, m2, d2);
  }

  lemma OrdinalSameYear(y1: int, m1: int, d1: int, y2: int, m2: int, d2: int)
    requires ValidDate(y1, m1, d1) && ValidDate(y2, m2, d2)
    requires Ordinal(y1, m1, d1) == Ordinal(y2, m2, d2)
    ensures y1 == y2
  {
    OrdinalBounds(y1, m1, d1);
    OrdinalBounds(y2, m2, d2);
    if y1 < y2 {
      DaysBeforeYearMonotone(y1 + 1, y2);
    } else if y2 < y1 {
      DaysBeforeYearMonotone(y2 + 1, y1);
    }
  }

  lemma OrdinalSameMonth(y: int, m1: int, d1: int, m2: int, d2: int)
    requires ValidDate(y, m1, d1) && ValidDate(y, m2, d2)
    requires Ordinal(y, m1, d1) == Ordinal(y, m2, d2)
    ensures m1 == m2 && d1 == d2
  {
    if m1 < m2 {
      MonthsInOrder(y, m1, d1, m2, d2);
    } else if m2 < m1 {
      MonthsInOrder(y, m2, d2, m1, d1);
    }
  }

  /** Within a year every day of an earlier month comes before every day of a later one. */
  lemma MonthsInOrder(y: int, m1: int, d1: int, m2: int, d2: int)
    requires 0 <= m1 < m2 <= 11 && 1 <= d1 <= MonthLength(y, m1) && 1 <= d2
    ensures Ordinal(y, m1, d1) < Ordinal(y, m2, d2)
  {
    MonthStep(y, m1);
    DaysBeforeMonthMonotone(y, m1 + 1, m2);
  }

  lemma MonthStep(year: int, month: int)
    requires 0 <= month <= 11
    ensures DaysBeforeMonth(year, month + 1) == DaysBeforeMonth(year, month) + MonthLength(year, month)
  {
  }

  /** Moving a day's worth of a month into the day count moves to the next month. */
  lemma OrdinalNextMonth(year: int, month: int, day: int)
    requires 0 <= month <= 11
    ensures month < 11 ==> Ordinal(year, month + 1, day) == Ordinal(year, month, day + MonthLength(year, month))
    ensures month == 11 ==> Ordinal(year + 1, 0, day) == Ordinal(year, 11, day + MonthLength(year, 11))
  {
    if month == 11 {
      NextYear(year);
    }
  }

  /** The local wall-clock time of `d` in milliseconds from the start of day number 0. */
  function LocalMs(d: DateTime): int
    requires 0 <= d.month <= 11
  {
    Ordinal(d.year, d.month, d.day) * MsPerDay
      + d.hour * MsPerHour + d.minute * 60000 + d.second * 1000 + d.ms
  }

  // ---------------------------------------------------------------------------
  // The host's mutators, on a copy

  /** `date.setDate(n)` on a copy: day `n` of the current month, rolled into
      earlier or later months while it lies outside the month. */
  method SetDate(dt: DateTime, n: int) returns (r: DateTime)
    requires 0 <= dt.month <= 11
    ensures ValidDate(r.year, r.month, r.day)
    ensures Ordinal(r.year, r.month, r.day) == Ordinal(dt.year, dt.month, n)
    ensures r == dt.(year := r.year, month := r.month, day := r.day)
    ensures ValidDate(dt.year, dt.month, n) ==> r == dt.(day := n)
  {
    var year, month, day := dt.year, dt.month, n;
    while day > MonthLength(year, month)
      invariant 0 <= month <= 11
      invariant Ordinal(year, month, day) == Ordinal(dt.year, dt.month, n)
      decreases day
    {
      var length := MonthLength(year, month);
      OrdinalNextMonth(year, month, day - length);
      day := day - length;
      if month == 11 {
        year, month := year + 1, 0;
      } else {
        month := month + 1;
      }
    }
    while day < 1
      invariant 0 <= month <= 11
      invariant day <= MonthLength(year, month)
      invariant Ordinal(year, month, day) == Ordinal(dt.year, dt.month, n)
      decreases -day
    {
      if month == 0 {
        OrdinalNextMonth(year - 1, 11, day);
        year, month := year - 1, 11;
      } else {
        OrdinalNextMonth(year, month - 1, day);
        month := month - 1;
      }
      var length := MonthLength(year, month);
      day := day + length;
    }
    r := dt.(year := year, month := month, day := day);
    if ValidDate(dt.year, dt.month, n) {
      OrdinalInjective(year, month, day, dt.year, dt.month, n);
    }
  }

  /** `date.setFullYear(year)` on a copy: the same month and day in `year`,
      rolled over when that day does not exist there. */
  method SetFullYear(dt: DateTime, year: int) returns (r: DateTime)
    requires 0 <= dt.month <= 11
    ensures ValidDate(r.year, r.month, r.day)
    ensures Ordinal(r.year, r.month, r.day) == Ordinal(year, dt.month, dt.day)
    ensures r == dt.(year := r.year, month := r.month, day := r.day)
    ensures ValidDate(year, dt.month, dt.day) ==> r == dt.(year := year)
  {
    r := SetDate(dt.(year := year), dt.day);
  }

  // ---------------------------------------------------------------------------
  // The library's calendar operations

  /** `d.addDays(days)`: `setDate(getDate() + days)` on a clone. The result is
      the valid date `days` calendar days away, at the same time of day. */
  method AddDays(d: DateTime, days: int) returns (r: DateTime)
    requires Valid(d)
    ensures Valid(r)
    ensures Ordinal(r.year, r.month, r.day) == Ordinal(d.year, d.month, d.day) + days
    ensures r.hour == d.hour && r.minute == d.minute && r.second == d.second && r.ms == d.ms
    ensures LocalMs(r) == LocalMs(d) + days * MsPerDay
    ensures days == 0 ==> r == d
  {
    var result := d;
    result := SetDate(result, d.day + days);
    r := result;
  }

  /** The absolute month count of a date. */
  function MonthIndex(d: DateTime): int {
    d.year * 12 + d.month
  }

  /** How far (in months) `addMonths` overshoots: the year is renormalised by
      adding or subtracting 11 months instead of 12. */
  function MonthDrift(month: int, months: int): int {
    var raw := month + JsRem(months, 12);
    if raw > 11 then 1 else if raw < 0 then -1 else 0
  }

  /** `d.addMonths(months)`, as written: year and month move by the truncated
      quotient and the remainder of `months / 12`, a month outside 0..11 is
      brought back by 11, and the day is clamped to the target month's length.
      `new Date(year, month, day)` drops the time of day. */
  method AddMonths(d: DateTime, months: int) returns (r: DateTime)
    requires Valid(d)
    ensures Valid(r)
    ensures MonthIndex(r) == MonthIndex(d) + months + MonthDrift(d.month, months)
    ensures r.day == Min(d.day, MonthLength(r.year, r.month))
    ensures r.hour == 0 && r.minute == 0 && r.second == 0 && r.ms == 0
  {
    var year := d.year + TruncDiv(months, 12);
    var month := d.month + JsRem(months, 12);
    if month > 11 {
      year := year + 1;
      month := month - 11;
    } else if month < 0 {
      year := year - 1;
      month := month + 11;
    }
    var length := DaysInMonth(year, month);
    assert length.Success?;
    r := DateTime(year, month, Min(d.day, length.value), 0, 0, 0, 0);
  }

  /** `addMonths` overshoots by one month exactly when the raw month leaves
      0..11, and always in the direction of travel. */
  lemma MonthDriftSign(month: int, months: int)
    requires 0 <= month <= 11
    ensures MonthDrift(month, months) in {-1, 0, 1}
    ensures MonthDrift(month, months) == 0 <==> 0 <= month + JsRem(months, 12) <= 11
    ensures MonthDrift(month, months) == 1 ==> months > 0
    ensures MonthDrift(month, months) == -1 ==> months < 0
  {
  }

  /** `addMonths` renormalised by 12, giving the number of months after the date
      that its documentation promises. */
  method AddMonthsIntended(d: DateTime, months: int) returns (r: DateTime)
    requires Valid(d)
    ensures Valid(r)
    ensures MonthIndex(r) == MonthIndex(d) + months
    ensures r.day == Min(d.day, MonthLength(r.year, r.month))
    ensures r.hour == 0 && r.minute == 0 && r.second == 0 && r.ms == 0
  {
    var year := d.year + TruncDiv(months, 12);
    var month := d.month + JsRem(months, 12);
    if month > 11 {
      year := year + 1;
      month := month - 12;
    } else if month < 0 {
      year := year - 1;
      month := month + 12;
    }
    var length := DaysInMonth(year, month);
    assert length.Success?;
    r := DateTime(year, month, Min(d.day, length.value), 0, 0, 0, 0);
  }

  /** The month `addMonths` overshoots by is undone on the way back, except
      from December forward and from January backward: the drift forward
      and the drift back then do not cancel, and the round trip lands one
      month beyond the start. */
  method AddMonthsRoundTrip(d: DateTime, months: int) returns (there: DateTime, back: DateTime)
    requires Valid(d) && d.day <= 28
    ensures MonthIndex(back) == MonthIndex(d) + RoundTripDrift(d.month, months)
    ensures back.day == d.day && back.hour == 0 && back.minute == 0 && back.second == 0 && back.ms == 0
    ensures RoundTripDrift(d.month, months) == 0 ==> back == StartOfDay(d)
  {
    there := AddMonths(d, months);
    back := AddMonths(there, -months);
    var rem, drift := JsRem(months, 12), MonthDrift(d.month, months);
    MonthFromIndex(there, d, months);
    assert there.month == d.month + rem - 11 * drift;
    assert there.day == d.day;
    DriftBack(d.month, months);
    assert drift + MonthDrift(there.month, -months) == RoundTripDrift(d.month, months);
    if RoundTripDrift(d.month, months) == 0 {
      SplitUnique(back.year, back.month, d.year, d.month);
    }
  }

  /** The overshoot of the way back, from the month the way there reached,
      cancels the way there's overshoot except from December forward and
      from January backward. */
  lemma DriftBack(month: int, months: int)
    requires 0 <= month <= 11
    ensures MonthDrift(month + JsRem(months, 12) - 11 * MonthDrift(month, months), -months) + MonthDrift(month, months)
      == RoundTripDrift(month, months)
  {
    JsRemNegate(months, 12);
  }

  /** `b % m` of `-a` is minus `a % m`. */
  lemma JsRemNegate(a: int, m: int)
    requires m > 0
    ensures JsRem(-a, m) == -JsRem(a, m)
  {
  }

  /** The result month of `addMonths`, read back from the month count. */
  lemma MonthFromIndex(r: DateTime, d: DateTime, months: int)
    requires 0 <= r.month <= 11 && 0 <= d.month <= 11
    requires MonthIndex(r) == MonthIndex(d) + months + MonthDrift(d.month, months)
    ensures r.month == d.month + JsRem(months, 12) - 12 * MonthDrift(d.month, months) + MonthDrift(d.month, months)
  {
    var q, rem, drift := TruncDiv(months, 12), JsRem(months, 12), MonthDrift(d.month, months);
    var target := d.month + rem - 12 * drift + drift;
    assert months == 12 * q + rem;
    assert 0 <= target <= 11;
    SplitUnique(r.year, r.month, d.year + q + drift, target);
  }

  /** A month count splits into a year and a month in 0..11 in one way only. */
  lemma SplitUnique(y1: int, m1: int, y2: int, m2: int)
    requires 0 <= m1 < 12 && 0 <= m2 < 12
    requires y1 * 12 + m1 == y2 * 12 + m2
    ensures y1 == y2 && m1 == m2
  {
  }

  /** How many months past its start an `addMonths` round trip lands. */
  function RoundTripDrift(month: int, months: int): int {
    if month == 11 && MonthDrift(month, months) == 1 then 1
    else if month == 0 && MonthDrift(month, months) == -1 then -1
    else 0
  }

  /** With the year renormalised by 12 months, adding `months` and then
      `-months` comes back to the start of the same day. */
  method AddMonthsIntendedRoundTrip(d: DateTime, months: int) returns (there: DateTime, back: DateTime)
    requires Valid(d) && d.day <= 28
    ensures back == StartOfDay(d)
  {
    there := AddMonthsIntended(d, months);
    back := AddMonthsIntended(there, -months);
  }

  /** `d.addYears(years)`: on a clone, Feb 29 becomes Feb 28 when the target
      year is not a leap year, then `setFullYear` moves to the target year. */
  method AddYears(d: DateTime, years: int) returns (r: DateTime)
    requires Valid(d)
    ensures Valid(r)
    ensures r.year == d.year + years && r.month == d.month
    ensures r.day == if d.month == 1 && d.day == 29 && !IsLeapYear(d.year + years) then 28 else d.day
    ensures r.hour == d.hour && r.minute == d.minute && r.second == d.second && r.ms == d.ms
    ensures years == 0 ==> r == d
  {
    var year := d.year + years;
    var result := d;
    if d.month == 1 && d.day == 29 && !IsLeapYear(year) {
      assert ValidDate(d.year, d.month, 28);
      result := SetDate(result, 28);
    }
    TargetDateValid(d, year);
    assert result == d.(day := if d.month == 1 && d.day == 29 && !IsLeapYear(year) then 28 else d.day);
    result := SetFullYear(result, year);
    r := result;
  }

  /** Only February's length depends on the year. */
  lemma MonthLengthInYear(y1: int, y2: int, month: int)
    requires 0 <= month <= 11 && month != 1
    ensures MonthLength(y1, month) == MonthLength(y2, month)
  {
  }

  /** The day `addYears` asks for exists in the target year. */
  lemma TargetDateValid(d: DateTime, year: int)
    requires Valid(d)
    ensures ValidDate(year, d.month, if d.month == 1 && d.day == 29 && !IsLeapYear(year) then 28 else d.day)
  {
    if d.month != 1 {
      MonthLengthInYear(d.year, year, d.month);
    }
  }

  /** `d.startOfDay()`: midnight at the start of the same day. */
  function StartOfDay(d: DateTime): (r: DateTime)
    requires Valid(d)
    ensures Valid(r)
    ensures r.year == d.year && r.month == d.month && r.day == d.day
    ensures LocalMs(r) <= LocalMs(d) < LocalMs(r) + MsPerDay
    ensures forall e :: Valid(e) && e.year == d.year && e.month == d.month && e.day == d.day ==> LocalMs(r) <= LocalMs(e)
  {
    DateTime(d.year, d.month, d.day, 0, 0, 0, 0)
  }

  /** `d.startOfMonth()`: midnight at the start of the first day of the same month. */
  function StartOfMonth(d: DateTime): (r: DateTime)
    requires Valid(d)
    ensures Valid(r)
    ensures r.year == d.year && r.month == d.month
    ensures LocalMs(r) <= LocalMs(d) < LocalMs(r) + MonthLength(d.year, d.month) * MsPerDay
    ensures forall e :: Valid(e) && e.year == d.year && e.month == d.month ==> LocalMs(r) <= LocalMs(e)
  {
    DateTime(d.year, d.month, 1, 0, 0, 0, 0)
  }

  /** `d.startOfYear()`: midnight at the start of 1 January of the same year. */
  function StartOfYear(d: DateTime): (r: DateTime)
    requires Valid(d)
    ensures Valid(r)
    ensures r.year == d.year
    ensures LocalMs(r) <= LocalMs(d) < LocalMs(r) + DaysBeforeMonth(d.year, 12) * MsPerDay
    ensures forall e :: Valid(e) && e.year == d.year ==> LocalMs(r) <= LocalMs(e)
  {
    OrdinalBounds(d.year, d.month, d.day);
    NextYear(d.year);
    DateTime(d.year, 0, 1, 0, 0, 0, 0)
  }

  /** `d.isOnSameDayAs(other)`: false for a missing operand, otherwise whether
      the two local midnights coincide. */
  function IsOnSameDayAs(d: DateTime, other: Option<DateTime>): (r: bool)
    requires Valid(d)
    requires other.Some? ==> Valid(other.value)
    ensures r <==> other.Some? && d.year == other.value.year && d.month == other.value.month && d.day == other.value.day
  {
    other.Some? && (
      var o := other.value;
      var same := LocalMs(StartOfDay(d)) == LocalMs(StartOfDay(o));
      if same then OrdinalInjective(d.year, d.month, d.day, o.year, o.month, o.day); same else same)
  }

  /** (y1, m1, d1) is on or before (y2, m2, d2) in calendar order. */
  predicate OnOrBefore(y1: int, m1: int, d1: int, y2: int, m2: int, d2: int) {
    y1 < y2 || (y1 == y2 && (m1 < m2 || (m1 == m2 && d1 <= d2)))
  }

  /** The `k`-th birthday of `birth` has been reached by the date of `at`. */
  predicate BirthdayReached(birth: DateTime, k: int, at: DateTime) {
    OnOrBefore(birth.year + k, birth.month, birth.day, at.year, at.month, at.day)
  }

  /** `birth.age(at)`: whole years from `birth` to `at`; the year difference,
      less one while this year's birthday (month, then day) is still ahead. */
  function Age(birth: DateTime, at: DateTime): (r: int)
    ensures BirthdayReached(birth, r, at) && !BirthdayReached(birth, r + 1, at)
  {
    var years := at.year - birth.year;
    var m := at.month - birth.month;
    if m == 0 then (if at.day < birth.day then years - 1 else years)
    else if m < 0 then years - 1 else years
  }

  /** The age is the year difference, less one exactly when (month, day) of
      `at` comes before that of `birth`. */
  lemma AgeRule(birth: DateTime, at: DateTime)
    ensures Age(birth, at) == at.year - birth.year
      - (if at.month < birth.month || (at.month == birth.month && at.day < birth.day) then 1 else 0)
  {
  }
}
