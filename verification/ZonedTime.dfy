/**
 * Wall-clock arithmetic in America/Sao_Paulo. Instants are milliseconds since
 * the epoch; the zone is the fixed -03:00 the code assumes in force since 2019.
 */
module ZonedTime {
  import opened Calendar

  const MS_PER_MINUTE := 60_000
  const MS_PER_HOUR := 3_600_000
  const MS_PER_DAY := 86_400_000
  const OFFSET_MS := -10_800_000

  datatype ZonedParts = ZonedParts(year: int, month: int, day: int, hour: int, minute: int, second: int)

  predicate WallClock(p: ZonedParts) {
    && ValidDate(DateOf(p))
    && 0 <= p.hour < 24 && 0 <= p.minute < 60 && 0 <= p.second < 60
  }

  function DateOf(p: ZonedParts): Date {
    Date(p.year, p.month, p.day)
  }

  /** Milliseconds from local midnight to `hour:minute:second`; out-of-range fields overflow. */
  function TimeOfDay(hour: int, minute: int, second: int): int {
    hour * MS_PER_HOUR + minute * MS_PER_MINUTE + second * 1000
  }

  /** `Date.UTC` with a zero-based month: fields out of range carry into the next one. */
  function DateUtc(year: int, month0: int, day: int, hour: int, minute: int, second: int): int {
    (DayNumber(Date(year + month0 / 12, month0 % 12 + 1, 1)) + day - 1) * MS_PER_DAY
    + TimeOfDay(hour, minute, second)
  }

  function NaiveUtc(p: ZonedParts): int {
    DateUtc(p.year, p.month - 1, p.day, p.hour, p.minute, p.second)
  }

  /** The UTC getters of an instant. */
  function UtcParts(t: int): ZonedParts {
    var c := CivilOf(t / MS_PER_DAY);
    ZonedParts(c.year, c.month, c.day,
               t % MS_PER_DAY / MS_PER_HOUR, t % MS_PER_HOUR / MS_PER_MINUTE, t % MS_PER_MINUTE / 1000)
  }

  /** `getUTCDay`: 0 is Sunday, and 1970-01-01 was a Thursday. */
  function UtcWeekday(t: int): int {
    (t / MS_PER_DAY + 4) % 7
  }

  /** Local fields of an instant when the zone's offset at `t` is `offset(t)`. */
  function PartsUnder(offset: int -> int, t: int): ZonedParts {
    UtcParts(t + offset(t))
  }

  function ToZonedParts(t: int): ZonedParts {
    UtcParts(t + OFFSET_MS)
  }

  /** What `ResolveWallClock` returns under the fixed offset. */
  function ZonedTimeToUtc(p: ZonedParts): int {
    NaiveUtc(p) - OFFSET_MS
  }

  /** The civil day an instant falls on in Sao Paulo, as a day number. */
  function LocalDay(t: int): int {
    (t + OFFSET_MS) / MS_PER_DAY
  }

  /** First instant of a local day. */
  function DayStart(day: int): int {
    day * MS_PER_DAY - OFFSET_MS
  }

  function StartOfZonedDay(t: int): ZonedParts {
    ToZonedParts(t).(hour := 0, minute := 0, second := 0)
  }

  /** Weekday of the local midnight that opens the day of `t`. */
  function ZonedWeekday(t: int): int {
    UtcWeekday(ZonedTimeToUtc(StartOfZonedDay(t)))
  }

  function AddZonedDays(p: ZonedParts, days: int): ZonedParts {
    var shifted := UtcParts(DateUtc(p.year, p.month - 1, p.day, 12, 0, 0) + days * MS_PER_DAY);
    p.(year := shifted.year, month := shifted.month, day := shifted.day)
  }

  /** JavaScript's remainder, which takes the sign of the dividend. */
  function TruncatedRem(a: int, b: int): int
    requires b > 0
  {
    if a >= 0 then a % b else -((-a) % b)
  }

  function AddZonedMonths(p: ZonedParts, months: int): ZonedParts {
    var totalMonths := p.month - 1 + months;
    var year := p.year + totalMonths / 12;
    var month := TruncatedRem(TruncatedRem(totalMonths, 12) + 12, 12);
    var daysInTargetMonth := UtcParts(DateUtc(year, month + 1, 0, 0, 0, 0)).day;
    p.(year := year, month := month + 1, day := if p.day <= daysInTargetMonth then p.day else daysInTargetMonth)
  }

  /**
   * The offset search: start from the fields read as UTC, observe the local
   * fields of the guess, and correct by the difference, at most three times.
   * `settled` reports an exit through `break`.
   */
  method ResolveWallClock(p: ZonedParts, offset: int -> int) returns (guess: int, settled: bool)
    // Whatever the offset function, leaving through `break` is a correct answer.
    ensures settled ==> NaiveUtc(PartsUnder(offset, guess)) == NaiveUtc(p)
    ensures settled && WallClock(p) ==> PartsUnder(offset, guess) == p
    // Under the fixed offset the search always settles, on one particular instant.
    ensures (forall t :: offset(t) == OFFSET_MS) ==> settled && guess == ZonedTimeToUtc(p)
  {
    hide UtcParts, NaiveUtc, WallClock;
    NaiveIsWholeSeconds(p);
    var naive := NaiveUtc(p);
    guess := naive;
    settled := false;
    var i := 0;
    while i < 3
      invariant 0 <= i <= 3 && !settled
      invariant (forall t :: offset(t) == OFFSET_MS) ==> i <= 1 && guess == if i == 0 then naive else naive - OFFSET_MS
    {
      var observed := PartsUnder(offset, guess);
      NaiveOfParts(guess + offset(guess));
      var diff := naive - NaiveUtc(observed);
      if diff == 0 {
        settled := true;
        break;
      }
      guess := guess + diff;
      i := i + 1;
    }
    if settled && WallClock(p) {
      PartsAreWallClock(guess + offset(guess));
      NaiveInjective(PartsUnder(offset, guess), p);
    }
  }

  // ---- Round trips -------------------------------------------------------

  lemma PartsAreWallClock(t: int)
    ensures WallClock(UtcParts(t))
  {
  }

  lemma NaiveOfWallClock(p: ZonedParts)
    requires 1 <= p.month <= 12
    ensures NaiveUtc(p) == DayNumber(DateOf(p)) * MS_PER_DAY + TimeOfDay(p.hour, p.minute, p.second)
  {
  }

  lemma NaiveIsWholeSeconds(p: ZonedParts)
    ensures NaiveUtc(p) % 1000 == 0
  {
    hide DayNumber;
    var n := DayNumber(Date(p.year + (p.month - 1) / 12, (p.month - 1) % 12 + 1, 1)) + p.day - 1;
    assert NaiveUtc(p) == 1000 * (86_400 * n + 3600 * p.hour + 60 * p.minute + p.second);
  }

  /** A time of day split with explicit quotients: `h` hours, `m` minutes, `sec` seconds and `ms` milliseconds. */
  lemma SplitIsUnique(u: int, h: int, m: int, sec: int, ms: int)
    requires u == MS_PER_HOUR * h + MS_PER_MINUTE * m + 1000 * sec + ms
    requires 0 <= m < 60 && 0 <= sec < 60 && 0 <= ms < 1000
    ensures u / MS_PER_HOUR == h && u % MS_PER_HOUR / MS_PER_MINUTE == m
    ensures u % MS_PER_MINUTE / 1000 == sec && u % 1000 == ms
  {
    var inMinute := 1000 * sec + ms;
    var inHour := MS_PER_MINUTE * m + inMinute;
    QuotientOf(u, MS_PER_HOUR, h, inHour);
    QuotientOf(inHour, MS_PER_MINUTE, m, inMinute);
    QuotientOf(u, MS_PER_MINUTE, 60 * h + m, inMinute);
    QuotientOf(inMinute, 1000, sec, ms);
    QuotientOf(u, 1000, 3600 * h + 60 * m + sec, ms);
  }

  lemma QuotientOf(a: int, b: int, q: int, r: int)
    requires b > 0 && a == b * q + r && 0 <= r < b
    ensures a / b == q && a % b == r
  {
    var d := a / b - q;
    assert b * d == r - a % b;
    assert d >= 1 ==> b * d >= b;
    assert d <= -1 ==> b * d <= -b;
  }

  lemma TimeOfDaySplits(u: int)
    requires 0 <= u < MS_PER_DAY
    ensures TimeOfDay(u / MS_PER_HOUR, u % MS_PER_HOUR / MS_PER_MINUTE, u % MS_PER_MINUTE / 1000) == u - u % 1000
  {
    var h, inHour := u / MS_PER_HOUR, u % MS_PER_HOUR;
    var m, inMinute := inHour / MS_PER_MINUTE, inHour % MS_PER_MINUTE;
    SplitIsUnique(u, h, m, inMinute / 1000, inMinute % 1000);
  }

  lemma RemaindersOfDay(t: int)
    ensures t % MS_PER_DAY % MS_PER_HOUR == t % MS_PER_HOUR
    ensures t % MS_PER_DAY % MS_PER_MINUTE == t % MS_PER_MINUTE
    ensures t % MS_PER_DAY % 1000 == t % 1000
  {
    var u := t % MS_PER_DAY;
    var d := t / MS_PER_DAY;
    assert t == d * MS_PER_DAY + u;
    QuotientOf(t, MS_PER_HOUR, 24 * d + u / MS_PER_HOUR, u % MS_PER_HOUR);
    QuotientOf(t, MS_PER_MINUTE, 1440 * d + u / MS_PER_MINUTE, u % MS_PER_MINUTE);
    QuotientOf(t, 1000, 86400 * d + u / 1000, u % 1000);
  }

  /** Reading the fields of an instant and composing them again drops only the milliseconds. */
  lemma NaiveOfParts(t: int)
    ensures NaiveUtc(UtcParts(t)) == t - t % 1000
  {
    var p := UtcParts(t);
    CivilRoundTrip(t / MS_PER_DAY);
    assert NaiveUtc(p) == t / MS_PER_DAY * MS_PER_DAY + TimeOfDay(p.hour, p.minute, p.second) by {
      NaiveOfWallClock(p);
    }
    TimeOfDaySplits(t % MS_PER_DAY);
    RemaindersOfDay(t);
  }

  lemma NaiveInjective(p: ZonedParts, q: ZonedParts)
    requires WallClock(p) && WallClock(q) && NaiveUtc(p) == NaiveUtc(q)
    ensures p == q
  {
    NaiveOfWallClock(p);
    NaiveOfWallClock(q);
    DayNumberInjective(DateOf(p), DateOf(q));
  }

  /** Every valid wall-clock record survives the trip to an instant and back. */
  lemma WallClockRoundTrip(p: ZonedParts)
    requires WallClock(p)
    ensures ToZonedParts(ZonedTimeToUtc(p)) == p
  {
    hide UtcParts, NaiveUtc, WallClock;
    var t := NaiveUtc(p);
    NaiveIsWholeSeconds(p);
    NaiveOfParts(t);
    PartsAreWallClock(t);
    NaiveInjective(UtcParts(t), p);
  }

  /** Every instant survives the trip to wall-clock fields and back, floored to the second. */
  lemma InstantRoundTrip(t: int)
    ensures WallClock(ToZonedParts(t))
    ensures ZonedTimeToUtc(ToZonedParts(t)) == t - t % 1000
  {
    hide UtcParts, NaiveUtc;
    PartsAreWallClock(t + OFFSET_MS);
    NaiveOfParts(t + OFFSET_MS);
  }

  // ---- Local days --------------------------------------------------------

  /** Replacing the time of day of `t` gives an instant counted from its local midnight. */
  lemma SetTimeOfDay(t: int, hour: int, minute: int, second: int)
    ensures ZonedTimeToUtc(ToZonedParts(t).(hour := hour, minute := minute, second := second))
         == DayStart(LocalDay(t)) + TimeOfDay(hour, minute, second)
  {
    var p := ToZonedParts(t).(hour := hour, minute := minute, second := second);
    CivilRoundTrip(LocalDay(t));
    NaiveOfWallClock(p);
  }

  /** `startOfZonedDay` opens the local day of `t`: at its midnight, not after `t` and less than 24 hours before it. */
  lemma StartOfDayBounds(t: int)
    ensures ZonedTimeToUtc(StartOfZonedDay(t)) == DayStart(LocalDay(t))
    ensures DayStart(LocalDay(t)) <= t < DayStart(LocalDay(t) + 1)
    ensures DayStart(LocalDay(t)) == LocalDay(t) * 86_400_000 + 10_800_000   // midnight at -03:00
  {
    SetTimeOfDay(t, 0, 0, 0);
  }

  /** Two instants carry the same year, month and day exactly when they fall on the same local day. */
  lemma SameDateIffSameLocalDay(a: int, b: int)
    ensures DateOf(ToZonedParts(a)) == DateOf(ToZonedParts(b)) <==> LocalDay(a) == LocalDay(b)
  {
    CivilRoundTrip(LocalDay(a));
    CivilRoundTrip(LocalDay(b));
  }

  lemma WeekdayOfLocalDay(t: int)
    ensures ZonedWeekday(t) == (LocalDay(t) + 4) % 7
  {
    hide StartOfZonedDay, ZonedTimeToUtc, LocalDay;
    StartOfDayBounds(t);
    assert DayStart(LocalDay(t)) / MS_PER_DAY == LocalDay(t);
  }

  predicate SameTime(p: ZonedParts, q: ZonedParts) {
    p.hour == q.hour && p.minute == q.minute && p.second == q.second
  }

  // ---- Adding days and months --------------------------------------------

  /** Adding local days moves the instant by whole days and keeps the time of day. */
  lemma AddDaysShifts(p: ZonedParts, n: int)
    requires WallClock(p)
    ensures WallClock(AddZonedDays(p, n)) && SameTime(AddZonedDays(p, n), p)
    ensures DayNumber(DateOf(AddZonedDays(p, n))) == DayNumber(DateOf(p)) + n
    ensures ZonedTimeToUtc(AddZonedDays(p, n)) == ZonedTimeToUtc(p) + n * MS_PER_DAY
  {
    var noon := DateUtc(p.year, p.month - 1, p.day, 12, 0, 0) + n * MS_PER_DAY;
    NaiveOfWallClock(p.(hour := 12, minute := 0, second := 0));
    assert noon / MS_PER_DAY == DayNumber(DateOf(p)) + n;
    CivilRoundTrip(noon / MS_PER_DAY);
    NaiveOfWallClock(AddZonedDays(p, n));
    NaiveOfWallClock(p);
  }

  /** Adding days is additive, and adding the opposite number of days undoes it. */
  lemma AddDaysAdditive(p: ZonedParts, a: int, b: int)
    requires WallClock(p)
    ensures AddZonedDays(AddZonedDays(p, a), b) == AddZonedDays(p, a + b)
    ensures AddZonedDays(AddZonedDays(p, a), -a) == p
  {
    hide AddZonedDays, ZonedTimeToUtc, DayNumber;
    var q := AddZonedDays(p, a);
    AddDaysShifts(p, a);
    AddDaysShifts(p, a + b);
    AddDaysShifts(q, b);
    AddDaysShifts(q, -a);
    DayNumberInjective(DateOf(AddZonedDays(q, b)), DateOf(AddZonedDays(p, a + b)));
    DayNumberInjective(DateOf(AddZonedDays(q, -a)), DateOf(p));
  }

  /** Setting the time on a day `n` days after the day of `t`. */
  lemma ShiftedDayAt(t: int, n: int, hour: int, minute: int)
    ensures ZonedTimeToUtc(AddZonedDays(ToZonedParts(t), n).(hour := hour, minute := minute, second := 0))
         == DayStart(LocalDay(t)) + n * MS_PER_DAY + TimeOfDay(hour, minute, 0)
  {
    hide ToZonedParts, ZonedTimeToUtc, AddZonedDays, WallClock;
    var p := ToZonedParts(t);
    InstantRoundTrip(t);
    AddDaysShifts(p, n);
    SetTimeOfDay(t, p.hour, p.minute, p.second);
    assert p == p.(hour := p.hour, minute := p.minute, second := p.second);
    var q := AddZonedDays(p, n);
    RetimedValue(q, hour, minute);
  }

  lemma RetimedValue(q: ZonedParts, hour: int, minute: int)
    ensures ZonedTimeToUtc(q.(hour := hour, minute := minute, second := 0))
         == ZonedTimeToUtc(q) - TimeOfDay(q.hour, q.minute, q.second) + TimeOfDay(hour, minute, 0)
  {
  }

  /** Months counted from year 0: the quantity `addZonedMonths` adds to. */
  function MonthIndex(p: ZonedParts): int {
    12 * p.year + p.month - 1
  }

  /** Length of the month that is `months` after the month of `p`. */
  function TargetLength(p: ZonedParts, months: int): int {
    var m := MonthIndex(p) + months;
    DaysInMonth(m / 12, m % 12 + 1)
  }

  lemma LastDayBeforeNextMonth(year: int, month: int)
    requires 1 <= month <= 12
    ensures ValidDate(Date(year, month, DaysInMonth(year, month)))
    ensures DayNumber(Date(year, month, DaysInMonth(year, month)))
         == DayNumber(Date(year + month / 12, month % 12 + 1, 1)) - 1
  {
    MonthLength(year, month);
    if month == 12 {
      YearLength(year);
    }
  }

  lemma DayZeroIsLastDay(year: int, month: int)
    requires 1 <= month <= 12
    ensures UtcParts(DateUtc(year, month, 0, 0, 0, 0)).day == DaysInMonth(year, month)
  {
    var last := Date(year, month, DaysInMonth(year, month));
    assert DateUtc(year, month, 0, 0, 0, 0) / MS_PER_DAY == DayNumber(last) by {
      LastDayBeforeNextMonth(year, month);
    }
    hide DayNumber, DateUtc, CivilOf, DaysInMonth;
    DateRoundTrip(last);
  }

  /** The result is a real date in the intended month, with the day kept when it fits and clamped otherwise. */
  lemma AddMonthsLands(p: ZonedParts, n: int)
    requires WallClock(p)
    ensures WallClock(AddZonedMonths(p, n)) && SameTime(AddZonedMonths(p, n), p)
    ensures MonthIndex(AddZonedMonths(p, n)) == MonthIndex(p) + n
    ensures AddZonedMonths(p, n).day == if p.day <= TargetLength(p, n) then p.day else TargetLength(p, n)
  {
    hide UtcParts, DateUtc;
    var total := p.month - 1 + n;
    assert TruncatedRem(TruncatedRem(total, 12) + 12, 12) == total % 12;
    assert (MonthIndex(p) + n) / 12 == p.year + total / 12;
    assert (MonthIndex(p) + n) % 12 == total % 12;
    DayZeroIsLastDay(p.year + total / 12, total % 12 + 1);
  }

  lemma DaysInMonthBounds(p: ZonedParts, n: int)
    ensures 28 <= TargetLength(p, n) <= 31
  {
  }

  /**
   * Adding months twice equals adding their sum exactly when the intermediate
   * month does not clamp the day below what the final month would keep.
   */
  lemma AddMonthsAdditiveIff(p: ZonedParts, a: int, b: int)
    requires WallClock(p)
    ensures AddZonedMonths(AddZonedMonths(p, a), b) == AddZonedMonths(p, a + b)
       <==> p.day <= TargetLength(p, a) || TargetLength(p, a + b) <= TargetLength(p, a)
    ensures p.day <= 28 ==> AddZonedMonths(AddZonedMonths(p, a), b) == AddZonedMonths(p, a + b)
  {
    hide AddZonedMonths, DaysInMonth;
    DaysInMonthBounds(p, a);
    AddMonthsLands(p, a);
    AddMonthsLands(p, a + b);
    AddMonthsLands(AddZonedMonths(p, a), b);
  }

  /** January 31st plus one month twice is a day of March before the 31st, in every year. */
  lemma MonthsDrift(p: ZonedParts)
    requires WallClock(p) && p.month == 1 && p.day == 31
    ensures AddZonedMonths(AddZonedMonths(p, 1), 1).day < 31
    ensures AddZonedMonths(p, 2).day == 31
  {
    hide AddZonedMonths;
    assert TargetLength(p, 1) <= 29;
    assert TargetLength(p, 2) == 31;
    AddMonthsLands(p, 1);
    AddMonthsLands(p, 2);
    AddMonthsLands(AddZonedMonths(p, 1), 1);
  }

  /** One month later is 28 to 31 days later. */
  lemma MonthStep(p: ZonedParts)
    requires WallClock(p)
    ensures ZonedTimeToUtc(p) + 28 * MS_PER_DAY <= ZonedTimeToUtc(AddZonedMonths(p, 1))
         <= ZonedTimeToUtc(p) + 31 * MS_PER_DAY
  {
    hide AddZonedMonths, NaiveUtc, DaysBeforeYear, DaysBeforeMonth;
    var q := AddZonedMonths(p, 1);
    AddMonthsLands(p, 1);
    NaiveOfWallClock(p);
    NaiveOfWallClock(q);
    LastDayBeforeNextMonth(p.year, p.month);
    assert q.year == p.year + p.month / 12 && q.month == p.month % 12 + 1;
    assert DayNumber(DateOf(q)) == DayNumber(DateOf(p)) + DaysInMonth(p.year, p.month) + q.day - p.day;
  }
}
