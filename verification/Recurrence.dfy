/** Recurring jobs and the seeding of daily rituals: when the next run falls. */
module Recurrence {
  import opened Calendar
  import opened ZonedTime

  datatype RecurrenceRule = Daily | Weekly | Monthly | Every(minutes: int)

  function NextOccurrence(fireAt: int, rule: RecurrenceRule): int {
    match rule
    case Every(minutes) => fireAt + minutes * MS_PER_MINUTE
    case Daily => ZonedTimeToUtc(AddZonedDays(ToZonedParts(fireAt), 1))
    case Weekly => ZonedTimeToUtc(AddZonedDays(ToZonedParts(fireAt), 7))
    case Monthly => ZonedTimeToUtc(AddZonedMonths(ToZonedParts(fireAt), 1))
  }

  function NextDailyRunAt(hour: int, minute: int, now: int): int {
    var todayStart := StartOfZonedDay(now);
    var candidate := ZonedTimeToUtc(todayStart.(hour := hour, minute := minute, second := 0));
    if candidate > now then candidate
    else
      var tomorrowStart := StartOfZonedDay(ZonedTimeToUtc(todayStart) + 24 * 60 * 60_000);
      ZonedTimeToUtc(tomorrowStart.(hour := hour, minute := minute, second := 0))
  }

  /** Calendar rules step from the firing instant floored to the second; the `every` rule keeps the milliseconds. */
  lemma StepSize(fireAt: int, rule: RecurrenceRule)
    ensures var base := fireAt - fireAt % 1000;
            match rule
            case Every(minutes) => NextOccurrence(fireAt, rule) == fireAt + minutes * MS_PER_MINUTE
            case Daily => NextOccurrence(fireAt, rule) == base + MS_PER_DAY
            case Weekly => NextOccurrence(fireAt, rule) == base + 7 * MS_PER_DAY
            case Monthly => base + 28 * MS_PER_DAY <= NextOccurrence(fireAt, rule) <= base + 31 * MS_PER_DAY
  {
    hide ToZonedParts, ZonedTimeToUtc, AddZonedDays, AddZonedMonths, WallClock;
    InstantRoundTrip(fireAt);
    var p := ToZonedParts(fireAt);
    AddDaysShifts(p, 1);
    AddDaysShifts(p, 7);
    MonthStep(p);
  }

  /**
   * `next` reads the same time of day in the month after that of `at`, on the same
   * day of the month, or on its last day when it is shorter.
   */
  predicate MonthLater(at: int, next: int) {
    var p, q := ToZonedParts(at), ToZonedParts(next);
    && next % 1000 == 0 && SameTime(q, p)
    && q.month == (if p.month == 12 then 1 else p.month + 1)
    && q.year == (if p.month == 12 then p.year + 1 else p.year)
    && q.day == if p.day <= DaysInMonth(q.year, q.month) then p.day else DaysInMonth(q.year, q.month)
  }

  /** The monthly rule keeps the day of the month when the next month has it, and clamps it otherwise. */
  lemma MonthlyLands(fireAt: int)
    ensures MonthLater(fireAt, NextOccurrence(fireAt, Monthly))
  {
    hide ToZonedParts, NaiveUtc, AddZonedMonths;
    var p := ToZonedParts(fireAt);
    InstantRoundTrip(fireAt);
    AddMonthsLands(p, 1);
    var q := AddZonedMonths(p, 1);
    WallClockRoundTrip(q);
    NaiveIsWholeSeconds(q);
    assert 1 <= p.month <= 12 && 1 <= q.month <= 12;
  }

  /** The next run is strictly later than the firing, except under an `every` rule without a positive interval. */
  lemma StrictlyLaterIff(fireAt: int, rule: RecurrenceRule)
    ensures NextOccurrence(fireAt, rule) > fireAt <==> (rule.Every? ==> rule.minutes > 0)
  {
    hide NextOccurrence;
    StepSize(fireAt, rule);
  }

  /** Daily, weekly and monthly rules keep the local time of day of the firing. */
  lemma KeepsTimeOfDay(fireAt: int, rule: RecurrenceRule)
    requires !rule.Every?
    ensures SameTime(ToZonedParts(NextOccurrence(fireAt, rule)), ToZonedParts(fireAt))
  {
    hide ToZonedParts, ZonedTimeToUtc, AddZonedDays, AddZonedMonths, WallClock;
    InstantRoundTrip(fireAt);
    var p := ToZonedParts(fireAt);
    AddDaysShifts(p, 1);
    AddDaysShifts(p, 7);
    AddMonthsLands(p, 1);
    WallClockRoundTrip(AddZonedDays(p, 1));
    WallClockRoundTrip(AddZonedDays(p, 7));
    WallClockRoundTrip(AddZonedMonths(p, 1));
  }

  /** A whole second that reads `hour:minute:00` on the local clock. */
  predicate ReadsAt(t: int, hour: int, minute: int) {
    && t % 1000 == 0
    && ToZonedParts(t).hour == hour && ToZonedParts(t).minute == minute && ToZonedParts(t).second == 0
  }

  /** An instant reads `hour:minute:00` exactly when it lies that long after its local midnight. */
  lemma ReadsAtIff(t: int, hour: int, minute: int)
    requires 0 <= hour < 24 && 0 <= minute < 60
    ensures ReadsAt(t, hour, minute) <==> t == DayStart(LocalDay(t)) + TimeOfDay(hour, minute, 0)
  {
    hide ToZonedParts, ZonedTimeToUtc, DayStart, LocalDay, WallClock;
    var p := ToZonedParts(t);
    InstantRoundTrip(t);
    SetTimeOfDay(t, p.hour, p.minute, p.second);
    assert p == p.(hour := p.hour, minute := p.minute, second := p.second);
    if t == DayStart(LocalDay(t)) + TimeOfDay(hour, minute, 0) {
      var q := p.(hour := hour, minute := minute, second := 0);
      SetTimeOfDay(t, hour, minute, 0);
      TimedPartsValid(t, hour, minute);
      WallClockRoundTrip(q);
      WholeSecond(t, hour, minute);
    }
  }

  lemma WholeSecond(t: int, hour: int, minute: int)
    ensures (DayStart(LocalDay(t)) + TimeOfDay(hour, minute, 0)) % 1000 == 0
  {
    hide LocalDay;
    assert DayStart(LocalDay(t)) + TimeOfDay(hour, minute, 0)
        == 1000 * (86_400 * LocalDay(t) + 10_800 + 3600 * hour + 60 * minute);
  }

  lemma TimedPartsValid(t: int, hour: int, minute: int)
    requires 0 <= hour < 24 && 0 <= minute < 60
    ensures WallClock(ToZonedParts(t).(hour := hour, minute := minute, second := 0))
  {
    hide ToZonedParts;
    InstantRoundTrip(t);
  }

  lemma DailyRunValue(hour: int, minute: int, now: int)
    ensures var today := DayStart(LocalDay(now)) + TimeOfDay(hour, minute, 0);
            NextDailyRunAt(hour, minute, now) == if today > now then today else today + MS_PER_DAY
  {
    hide ToZonedParts, ZonedTimeToUtc;
    StartOfDayBounds(now);
    SetTimeOfDay(now, hour, minute, 0);
    var tomorrow := DayStart(LocalDay(now)) + 24 * 60 * 60_000;
    assert LocalDay(tomorrow) == LocalDay(now) + 1;
    SetTimeOfDay(tomorrow, hour, minute, 0);
  }

  /** The first run of a ritual is the least instant strictly after `now` that reads `hour:minute:00`. */
  lemma DailyRunIsNext(hour: int, minute: int, now: int)
    requires 0 <= hour < 24 && 0 <= minute < 60
    ensures NextDailyRunAt(hour, minute, now) > now
    ensures ReadsAt(NextDailyRunAt(hour, minute, now), hour, minute)
    ensures forall t :: now < t && ReadsAt(t, hour, minute) ==> NextDailyRunAt(hour, minute, now) <= t
  {
    hide NextDailyRunAt, ReadsAt;
    var r := NextDailyRunAt(hour, minute, now);
    DailyRunValue(hour, minute, now);
    assert r > now && r == DayStart(LocalDay(r)) + TimeOfDay(hour, minute, 0);
    ReadsAtIff(r, hour, minute);
    forall t | now < t && ReadsAt(t, hour, minute)
      ensures r <= t
    {
      ReadsAtIff(t, hour, minute);
    }
  }
}
