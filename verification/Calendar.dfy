/** Civil-calendar arithmetic of the dataset loader and of the log timestamp.

    `EpochSeconds` is the loader's closed-form day number plus the time of day;
    `CivilFromSeconds` is the inverse used to print a UTC timestamp.  Both are related
    to `NextDay`, which turns over one calendar page at a time under the leap-year rule
    of Appendix C of RFC 3339. */
module Calendar {

  datatype Date = Date(year: int, month: int, day: int)
  datatype Clock = Clock(hour: int, minute: int, second: int)
  datatype DateTime = DateTime(date: Date, clock: Clock)

  import opened Wrappers

  /* ----- The reference calendar ----- */

  predicate IsLeap(year: int) {
    year % 4 == 0 && (year % 100 != 0 || year % 400 == 0)
  }

  function DaysInMonth(year: int, month: int): int {
    if month == 2 then (if IsLeap(year) then 29 else 28)
    else if month in {4, 6, 9, 11} then 30
    else 31
  }

  predicate ValidDate(d: Date) {
    1 <= d.month <= 12 && 1 <= d.day <= DaysInMonth(d.year, d.month)
  }

  predicate ValidClock(c: Clock) {
    0 <= c.hour <= 23 && 0 <= c.minute <= 59 && 0 <= c.second <= 59
  }

  function NextDay(d: Date): (r: Date)
    requires ValidDate(d)
    ensures ValidDate(r)
  {
    if d.day < DaysInMonth(d.year, d.month) then Date(d.year, d.month, d.day + 1)
    else if d.month < 12 then Date(d.year, d.month + 1, 1)
    else Date(d.year + 1, 1, 1)
  }

  function PreviousDay(d: Date): (r: Date)
    requires ValidDate(d)
    ensures ValidDate(r)
    ensures NextDay(r) == d
  {
    if d.day > 1 then Date(d.year, d.month, d.day - 1)
    else if d.month > 1 then Date(d.year, d.month - 1, DaysInMonth(d.year, d.month - 1))
    else Date(d.year - 1, 12, 31)
  }

  const EPOCH := Date(1970, 1, 1)

  /** The date reached from 1970-01-01 by turning `n` calendar pages (backwards when negative). */
  function CountedDate(n: int): (r: Date)
    ensures ValidDate(r)
    decreases if n < 0 then -n else n
  {
    if n == 0 then EPOCH
    else if n > 0 then NextDay(CountedDate(n - 1))
    else PreviousDay(CountedDate(n + 1))
  }

  /* ----- The code ----- */

  /** Truncating division: towards zero. */
  function TruncatedDiv(a: int, b: int): int
    requires b > 0
  {
    if a >= 0 then a / b else -(-a / b)
  }

  lemma TruncatedDivFloors(y: int)
    ensures TruncatedDiv(if y >= 0 then y else y - 399, 400) == y / 400
  {
  }

  function MarchDay(m: int, day: int): int {
    (153 * (m - 3) + 2) / 5 + day - 1
  }

  function DaysBeforeYear(yoe: int): int {
    yoe * 365 + yoe / 4 - yoe / 100
  }

  /** Days since 1970-01-01, by the loader's formula.  The loader admits every day up to 31
      in every month, so this is defined on more than the valid dates. */
  function DayNumber(d: Date): int
    requires 1 <= d.month <= 12
  {
    var y := if d.month <= 2 then d.year - 1 else d.year;
    var m := if d.month <= 2 then d.month + 12 else d.month;
    var era := TruncatedDiv(if y >= 0 then y else y - 399, 400);
    var doe := DaysBeforeYear(y - era * 400) + MarchDay(m, d.day);
    era * 146097 + doe - 719468
  }

  /** The loader's range checks and its conversion to epoch milliseconds. */
  function EpochMillis(dt: DateTime): Option<int> {
    if dt.date.month <= 0 || dt.date.month > 12 || dt.date.day <= 0 || dt.date.day > 31 then None
    else if !ValidClock(dt.clock) then None
    else Some(EncodedSeconds(dt) * 1000)
  }

  function EncodedSeconds(dt: DateTime): int
    requires 1 <= dt.date.month <= 12
  {
    DayNumber(dt.date) * 86400 + dt.clock.hour * 3600 + dt.clock.minute * 60 + dt.clock.second
  }

  /** The loader's hour-of-day feature of an epoch millisecond, before or after 1970. */
  function HourBucket(ms: int): int {
    ms / 1000 / 3600 % 24
  }

  /** The loader's weekday feature: 0 is Sunday, and 1970-01-01 was a Thursday. */
  function Weekday(ms: int): int {
    (ms / 86400000 + 4) % 7
  }

  function YearOfDay(doe: int): int {
    (doe - doe / 1460 + doe / 36524 - doe / 146096) / 365
  }

  function DateOfMarchDay(year: int, doy: int): Date {
    var mp := (5 * doy + 2) / 153;
    var month := if mp < 10 then mp + 3 else mp - 9;
    Date(if month <= 2 then year + 1 else year, month, doy - (153 * mp + 2) / 5 + 1)
  }

  /** Year, month and day of the `n`-th day after 1970-01-01, by the timestamp formatter. */
  function CivilFromDays(n: int): Date {
    var era := (n + 719468) / 146097;
    var doe := n + 719468 - era * 146097;
    var yoe := YearOfDay(doe);
    DateOfMarchDay(yoe + era * 400, doe - DaysBeforeYear(yoe))
  }

  /** The fields the formatter prints for a second count since the epoch. */
  function CivilFromSeconds(secs: nat): DateTime {
    var rem := secs % 86400;
    DateTime(CivilFromDays(secs / 86400), Clock((rem / 3600) % 24, (rem % 3600) / 60, rem % 60))
  }

  /* ----- Integer division ----- */

  /** The quotient is pinned by bounds on the dividend. */
  lemma QuotientIs(a: int, b: int, q: int)
    requires b > 0 && b * q <= a < b * q + b
    ensures a / b == q
  {
    var e := a / b - q;
    assert e >= 1 ==> b * e >= b;
    assert e <= -1 ==> b * e <= -b;
  }

  lemma Residue(k: int, b: int, x: int)
    requires b > 0
    ensures (k * b + x) % b == x % b
  {
    QuotientIs(k * b + x, b, k + x / b);
  }

  lemma QuotientStep(y: int, b: int)
    requires b > 1
    ensures y / b == (y - 1) / b + if y % b == 0 then 1 else 0
  {
    var q := y / b;
    QuotientIs(y - 1, b, if y % b == 0 then q - 1 else q);
  }

  lemma LeapPeriod(era: int, yoe: int)
    ensures IsLeap(era * 400 + yoe) == IsLeap(yoe)
  {
    Residue(100 * era, 4, yoe);
    Residue(4 * era, 100, yoe);
    Residue(era, 400, yoe);
  }

  /* ----- Years that start in March ----- */

  /** The loader's formula without eras: 365 days a year and one for each leap day passed. */
  lemma DayNumberWithoutEras(d: Date)
    requires 1 <= d.month <= 12
    ensures var y := if d.month <= 2 then d.year - 1 else d.year;
            var m := if d.month <= 2 then d.month + 12 else d.month;
            DayNumber(d) == 365 * y + y / 4 - y / 100 + y / 400 + MarchDay(m, d.day) - 719468
  {
    var y := if d.month <= 2 then d.year - 1 else d.year;
    TruncatedDivFloors(y);
    EraYears(y / 400, y % 400);
  }

  lemma EraYears(era: int, yoe: int)
    requires 0 <= yoe < 400
    ensures var y := era * 400 + yoe;
            era * 146097 + DaysBeforeYear(yoe) == 365 * y + y / 4 - y / 100 + y / 400
  {
    var y := era * 400 + yoe;
    QuotientIs(y, 4, 100 * era + yoe / 4);
    QuotientIs(y, 100, 4 * era + yoe / 100);
    QuotientIs(y, 400, era);
  }

  /** Recovering the year of era from the day of era. */
  lemma YearOfEra(c: int, q: int, r: int, doy: int)
    requires 0 <= c <= 3 && 0 <= q <= 24 && 0 <= r <= 3
    requires 0 <= doy <= 365
    requires doy == 365 ==> r == 3 && (q < 24 || c == 3)
    ensures YearOfDay(36524 * c + 1461 * q + 365 * r + doy) == 100 * c + 4 * q + r
  {
    var doe := 36524 * c + 1461 * q + 365 * r + doy;
    var last := c == 3 && q == 24 && r == 3 && doy == 365;
    var spill := if 24 * c + q + 365 * r + doy >= 1460 then 1 else 0;
    QuotientIs(doe, 1460, 25 * c + q + spill);
    QuotientIs(doe, 36524, if last then 4 else c);
    QuotientIs(doe, 146096, if last then 1 else 0);
    QuotientIs(365 * (100 * c + 4 * q + r) + doy - spill, 365, 100 * c + 4 * q + r);
  }

  /** A day of a March-based year gives back its month and day. */
  lemma MonthOfDay(y: int, m: int, day: int)
    requires 3 <= m <= 14
    requires 1 <= day <= DaysInMonth(if m <= 12 then y else y + 1, if m <= 12 then m else m - 12)
    ensures 0 <= MarchDay(m, day) <= 365
    ensures MarchDay(m, day) == 365 ==> m == 14 && IsLeap(y + 1)
    ensures DateOfMarchDay(y, MarchDay(m, day)) == if m <= 12 then Date(y, m, day) else Date(y + 1, m - 12, day)
  {
    QuotientIs(5 * MarchDay(m, day) + 2, 153, m - 3);
  }

  /** The day of era gives back the year of era and the day of its March-based year. */
  lemma DayOfEra(yoe: int, doy: int)
    requires 0 <= yoe <= 399 && 0 <= doy <= 365
    requires doy == 365 ==> IsLeap(yoe + 1)
    ensures YearOfDay(DaysBeforeYear(yoe) + doy) == yoe
    ensures 0 <= DaysBeforeYear(yoe) + doy < 146097
  {
    var c, q, r := yoe / 100, yoe % 100 / 4, yoe % 4;
    QuotientIs(yoe, 4, 25 * c + q);
    assert yoe == 100 * c + 4 * q + r;
    YearOfEra(c, q, r, doy);
  }

  /* ----- Main results ----- */

  /** The formatter inverts the loader's day number on every valid date, in any year. */
  lemma CivilInvertsDayNumber(d: Date)
    requires ValidDate(d)
    ensures CivilFromDays(DayNumber(d)) == d
  {
    var y := if d.month <= 2 then d.year - 1 else d.year;
    var m := if d.month <= 2 then d.month + 12 else d.month;
    LeapPeriod(y / 400, y % 400 + 1);
    MonthOfDay(y, m, d.day);
    DayNumberParts(d);
    CivilOfParts(y / 400, y % 400, MarchDay(m, d.day));
  }

  lemma DayNumberParts(d: Date)
    requires 1 <= d.month <= 12
    ensures var y := if d.month <= 2 then d.year - 1 else d.year;
            var m := if d.month <= 2 then d.month + 12 else d.month;
            DayNumber(d) == y / 400 * 146097 + DaysBeforeYear(y % 400) + MarchDay(m, d.day) - 719468
  {
    TruncatedDivFloors(if d.month <= 2 then d.year - 1 else d.year);
  }

  lemma CivilOfParts(era: int, yoe: int, doy: int)
    requires 0 <= yoe <= 399 && 0 <= doy <= 365
    requires doy == 365 ==> IsLeap(yoe + 1)
    ensures CivilFromDays(era * 146097 + DaysBeforeYear(yoe) + doy - 719468) == DateOfMarchDay(yoe + era * 400, doy)
  {
    DayOfEra(yoe, doy);
    QuotientIs(era * 146097 + (DaysBeforeYear(yoe) + doy), 146097, era);
  }

  /** One calendar page is one day: this and `DayNumber(EPOCH) == 0` fix the closed form. */
  lemma NextDayAddsOne(d: Date)
    requires ValidDate(d)
    ensures DayNumber(NextDay(d)) == DayNumber(d) + 1
  {
    if d.day < DaysInMonth(d.year, d.month) {
      DayNumberLinear(d);
      DayNumberLinear(NextDay(d));
    } else if d.month == 2 {
      FebruaryEnds(d.year);
    } else {
      MonthEnds(d.year, d.month);
    }
  }

  lemma FebruaryEnds(year: int)
    ensures DayNumber(Date(year, 3, 1)) == DayNumber(Date(year, 2, DaysInMonth(year, 2))) + 1
  {
    DayNumberWithoutEras(Date(year, 3, 1));
    DayNumberWithoutEras(Date(year, 2, DaysInMonth(year, 2)));
    LeapDays(year);
  }

  lemma MonthEnds(year: int, month: int)
    requires 1 <= month <= 12 && month != 2
    ensures var next := if month == 12 then Date(year + 1, 1, 1) else Date(year, month + 1, 1);
            DayNumber(next) == DayNumber(Date(year, month, DaysInMonth(year, month))) + 1
  {
    DayNumberParts(Date(year, month, DaysInMonth(year, month)));
    DayNumberParts(if month == 12 then Date(year + 1, 1, 1) else Date(year, month + 1, 1));
    MonthTurns(if month == 1 then 13 else month, DaysInMonth(year, month));
  }

  /** Within a March-based year the month table has no gaps. */
  lemma MonthTurns(m: int, last: int)
    requires 3 <= m <= 13 && last == if m in {4, 6, 9, 11} then 30 else 31
    ensures MarchDay(m + 1, 1) == MarchDay(m, last) + 1
  {
  }

  /** A year that starts in March is 365 days long, and one more when its February is in a leap year. */
  lemma LeapDays(y: int)
    ensures var x := y - 1;
            y / 4 - y / 100 + y / 400 == x / 4 - x / 100 + x / 400 + if IsLeap(y) then 1 else 0
  {
    QuotientStep(y, 4);
    QuotientStep(y, 100);
    QuotientStep(y, 400);
    Divides(y, 4, 25);
    Divides(y, 100, 4);
  }

  lemma Divides(y: int, a: int, b: int)
    requires a > 0 && b > 0
    ensures y % (a * b) == 0 ==> y % a == 0
  {
    if y % (a * b) == 0 {
      var q := y / (a * b);
      assert y == (b * q) * a + 0;
      Residue(b * q, a, 0);
    }
  }

  /** The loader's day number counts calendar pages from 1970-01-01, in both directions. */
  lemma {:induction false} DayNumberCounts(n: int)
    ensures DayNumber(CountedDate(n)) == n
    decreases if n < 0 then -n else n
  {
    hide DayNumber, NextDay, PreviousDay, ValidDate, DaysInMonth, IsLeap;
    if n > 0 {
      DayNumberCounts(n - 1);
      NextDayAddsOne(CountedDate(n - 1));
    } else if n < 0 {
      DayNumberCounts(n + 1);
      NextDayAddsOne(CountedDate(n));
    } else {
      EpochIsZero();
    }
  }

  lemma EpochIsZero()
    ensures DayNumber(CountedDate(0)) == 0
  {
  }

  /** Every valid date is reached by counting, and its day number is the count. */
  lemma DayNumberIsCount(d: Date)
    requires ValidDate(d)
    ensures CountedDate(DayNumber(d)) == d
    ensures forall n: int :: CountedDate(n) == d <==> n == DayNumber(d)
  {
    var n := DayNumber(d);
    DayNumberCounts(n);
    CivilInvertsDayNumber(d);
    CivilInvertsDayNumber(CountedDate(n));
    forall k: int | CountedDate(k) == d ensures k == n {
      DayNumberCounts(k);
    }
  }

  /** Days past the end of a month spill over: day numbers are linear in the day field. */
  lemma DayNumberLinear(d: Date)
    requires 1 <= d.month <= 12
    ensures DayNumber(d) == DayNumber(Date(d.year, d.month, 1)) + d.day - 1
  {
  }

  /** Round trip: whatever the loader accepts from 1970 on, printing the encoded second
      gives back the same fields exactly when the date exists. */
  lemma RoundTrip(dt: DateTime)
    requires EpochMillis(dt).Some? && dt.date.year >= 1970
    ensures EpochMillis(dt).value >= 0
    ensures EpochMillis(dt).value % 1000 == 0
    ensures CivilFromSeconds(EpochMillis(dt).value / 1000) == dt <==> ValidDate(dt.date)
  {
    ExactMillis(EncodedSeconds(dt));
    SecondsRoundTrip(dt);
  }

  lemma SecondsRoundTrip(dt: DateTime)
    requires 1 <= dt.date.month <= 12 && dt.date.day >= 1 && ValidClock(dt.clock) && dt.date.year >= 1970
    ensures EncodedSeconds(dt) >= 0
    ensures CivilFromSeconds(EncodedSeconds(dt)) == dt <==> ValidDate(dt.date)
  {
    hide DayNumber, CivilFromDays, ValidDate, CivilFromSeconds;
    AfterEpoch(dt.date);
    ClockOfSeconds(DayNumber(dt.date), dt.clock);
    CivilMatches(dt.date);
  }

  lemma ExactMillis(secs: int)
    ensures secs * 1000 % 1000 == 0 && secs * 1000 / 1000 == secs
  {
    QuotientIs(secs * 1000, 1000, secs);
  }

  lemma CivilMatches(d: Date)
    requires 1 <= d.month <= 12
    ensures CivilFromDays(DayNumber(d)) == d <==> ValidDate(d)
  {
    CivilIsValid(DayNumber(d));
    if ValidDate(d) {
      CivilInvertsDayNumber(d);
    }
  }

  lemma ClockOfSeconds(days: nat, c: Clock)
    requires ValidClock(c)
    ensures CivilFromSeconds(days * 86400 + c.hour * 3600 + c.minute * 60 + c.second) ==
            DateTime(CivilFromDays(days), c)
  {
    QuotientIs(days * 86400 + (c.hour * 3600 + c.minute * 60 + c.second), 86400, days);
    ClockOfRemainder(c);
  }

  lemma ClockOfRemainder(c: Clock)
    requires ValidClock(c)
    ensures var rem := c.hour * 3600 + c.minute * 60 + c.second;
            Clock((rem / 3600) % 24, (rem % 3600) / 60, rem % 60) == c
  {
    var rem := c.hour * 3600 + c.minute * 60 + c.second;
    QuotientIs(rem, 3600, c.hour);
    QuotientIs(c.minute * 60 + c.second, 60, c.minute);
    QuotientIs(rem, 60, c.hour * 60 + c.minute);
  }

  /** The loader never puts a date from 1970 on before the epoch. */
  lemma AfterEpoch(d: Date)
    requires d.year >= 1970 && 1 <= d.month <= 12 && d.day >= 1
    ensures DayNumber(d) >= 0
  {
    DayNumberWithoutEras(d);
  }

  /** The formatter only ever prints dates that exist. */
  lemma CivilIsValid(n: int)
    ensures ValidDate(CivilFromDays(n))
    ensures DayNumber(CivilFromDays(n)) == n
  {
    DayNumberCounts(n);
    CivilInvertsDayNumber(CountedDate(n));
  }

  /** The time features read from an encoded timestamp are those of the calendar, in any year:
      the hour is the encoded one and the weekday moves on by one with each calendar page. */
  lemma TimeFeatures(dt: DateTime)
    requires EpochMillis(dt).Some? && ValidDate(dt.date)
    ensures HourBucket(EpochMillis(dt).value) == dt.clock.hour
    ensures Weekday(EpochMillis(dt).value) == (DayNumber(dt.date) + 4) % 7
    ensures var tomorrow := EpochMillis(DateTime(NextDay(dt.date), dt.clock));
            tomorrow.Some? && Weekday(tomorrow.value) == (Weekday(EpochMillis(dt).value) + 1) % 7
  {
    hide DayNumber, NextDay, HourBucket;
    HourOfMillis(DayNumber(dt.date), dt.clock);
    DayOfMillis(DayNumber(dt.date), dt.clock);
    DayOfMillis(DayNumber(NextDay(dt.date)), dt.clock);
    NextDayAddsOne(dt.date);
  }

  lemma HourOfMillis(days: int, c: Clock)
    requires ValidClock(c)
    ensures HourBucket((days * 86400 + c.hour * 3600 + c.minute * 60 + c.second) * 1000) == c.hour
  {
    var secs := days * 86400 + c.hour * 3600 + c.minute * 60 + c.second;
    ExactMillis(secs);
    QuotientIs(secs, 3600, days * 24 + c.hour);
    Residue(days, 24, c.hour);
  }

  lemma DayOfMillis(days: int, c: Clock)
    requires ValidClock(c)
    ensures (days * 86400 + c.hour * 3600 + c.minute * 60 + c.second) * 1000 / 86400000 == days
  {
    QuotientIs((days * 86400 + c.hour * 3600 + c.minute * 60 + c.second) * 1000, 86400000, days);
  }
}
