/** The reminder chain of an appointment: eve, morning and departure alerts. */
module ExpandChain {
  import opened ZonedTime

  datatype ChainStage = Vespera | Manha | Preparo

  datatype ChainSettings = ChainSettings(vesperaHour: int, manhaHour: int, prepMarginMin: int)

  datatype Reminder = Reminder(stage: ChainStage, fireAt: int)

  function FireTime(stage: ChainStage, startAt: int, deslocamentoMin: int, settings: ChainSettings): int {
    var startParts := ToZonedParts(startAt);
    match stage
    case Vespera =>
      ZonedTimeToUtc(AddZonedDays(startParts, -1).(hour := settings.vesperaHour, minute := 0, second := 0))
    case Manha => ZonedTimeToUtc(startParts.(hour := settings.manhaHour, minute := 0, second := 0))
    case Preparo => startAt - (deslocamentoMin + settings.prepMarginMin) * MS_PER_MINUTE
  }

  /** The candidates that pass the filter, in candidate order. */
  function KeepUpcoming(candidates: seq<Reminder>, startAt: int, now: int): (kept: seq<Reminder>)
    ensures forall r :: r in kept <==> r in candidates && now < r.fireAt < startAt
  {
    if candidates == [] then []
    else
      (if now < candidates[0].fireAt < startAt then [candidates[0]] else [])
      + KeepUpcoming(candidates[1..], startAt, now)
  }

  function Expand(startAt: int, deslocamentoMin: int, settings: ChainSettings, now: int): seq<Reminder> {
    var stages := [Vespera, Manha, Preparo];
    var candidates := seq(3, i requires 0 <= i < 3 =>
      Reminder(stages[i], FireTime(stages[i], startAt, deslocamentoMin, settings)));
    KeepUpcoming(candidates, startAt, now)
  }

  function Position(stage: ChainStage): nat {
    match stage case Vespera => 0 case Manha => 1 case Preparo => 2
  }

  predicate InStageOrder(reminders: seq<Reminder>) {
    forall i, j :: 0 <= i < j < |reminders| ==> Position(reminders[i].stage) < Position(reminders[j].stage)
  }

  lemma {:induction false} KeepsOrder(candidates: seq<Reminder>, startAt: int, now: int)
    requires InStageOrder(candidates)
    ensures InStageOrder(KeepUpcoming(candidates, startAt, now))
  {
    if candidates != [] {
      var tail := candidates[1..];
      var rest := KeepUpcoming(tail, startAt, now);
      KeepsOrder(tail, startAt, now);
      forall k | 0 <= k < |rest| ensures Position(candidates[0].stage) < Position(rest[k].stage) {
        assert rest[k] in tail;
      }
      assert InStageOrder([candidates[0]] + rest);
    }
  }

  /**
   * A stage is in the chain exactly when its alert time lies strictly between
   * now and the appointment, at that time, and the stages that survive
   * keep the order eve, morning, departure with none repeated.
   */
  lemma ChainContents(startAt: int, deslocamentoMin: int, settings: ChainSettings, now: int)
    ensures var chain := Expand(startAt, deslocamentoMin, settings, now);
            && (forall r: Reminder :: r in chain
                  <==> r.fireAt == AlertTime(r.stage, startAt, deslocamentoMin, settings) && now < r.fireAt < startAt)
            && InStageOrder(chain)
  {
    hide FireTime;
    FireTimeIsAlertTime(Vespera, startAt, deslocamentoMin, settings);
    FireTimeIsAlertTime(Manha, startAt, deslocamentoMin, settings);
    FireTimeIsAlertTime(Preparo, startAt, deslocamentoMin, settings);
    var stages := [Vespera, Manha, Preparo];
    var candidates := seq(3, i requires 0 <= i < 3 =>
      Reminder(stages[i], FireTime(stages[i], startAt, deslocamentoMin, settings)));
    KeepsOrder(candidates, startAt, now);
    forall r: Reminder | r.fireAt == AlertTime(r.stage, startAt, deslocamentoMin, settings)
      ensures r in candidates
    {
      assert candidates[Position(r.stage)] == r;
    }
  }

  /**
   * The eve alert fires on the previous local day and the morning one on the day
   * itself, whatever the month or year.
   */
  lemma StageDays(startAt: int, deslocamentoMin: int, settings: ChainSettings)
    ensures FireTime(Vespera, startAt, deslocamentoMin, settings)
         == DayStart(LocalDay(startAt) - 1) + settings.vesperaHour * MS_PER_HOUR
    ensures FireTime(Manha, startAt, deslocamentoMin, settings)
         == DayStart(LocalDay(startAt)) + settings.manhaHour * MS_PER_HOUR
  {
    hide ToZonedParts, ZonedTimeToUtc, AddZonedDays;
    ShiftedDayAt(startAt, -1, settings.vesperaHour, 0);
    SetTimeOfDay(startAt, settings.manhaHour, 0, 0);
  }

  /** The departure alert leaves the travel time and the margin before the start. */
  lemma LeavesInTime(startAt: int, deslocamentoMin: int, settings: ChainSettings)
    ensures FireTime(Preparo, startAt, deslocamentoMin, settings)
            + deslocamentoMin * 60_000 + settings.prepMarginMin * 60_000 == startAt
  {
  }

  /** When the alert of a stage is due: on the eve or the morning at its hour, or in time to leave. */
  function AlertTime(stage: ChainStage, startAt: int, deslocamentoMin: int, settings: ChainSettings): int {
    match stage
    case Vespera => DayStart(LocalDay(startAt) - 1) + settings.vesperaHour * 3_600_000
    case Manha => DayStart(LocalDay(startAt)) + settings.manhaHour * 3_600_000
    case Preparo => startAt - deslocamentoMin * 60_000 - settings.prepMarginMin * 60_000
  }

  lemma FireTimeIsAlertTime(stage: ChainStage, startAt: int, deslocamentoMin: int, settings: ChainSettings)
    ensures FireTime(stage, startAt, deslocamentoMin, settings)
         == AlertTime(stage, startAt, deslocamentoMin, settings)
  {
    hide FireTime;
    StageDays(startAt, deslocamentoMin, settings);
    LeavesInTime(startAt, deslocamentoMin, settings);
  }

  /** With hours of the day as settings, the eve alert precedes both the morning alert and the appointment. */
  lemma EveComesFirst(startAt: int, deslocamentoMin: int, settings: ChainSettings)
    requires settings.vesperaHour < 24 && settings.manhaHour >= 0
    ensures FireTime(Vespera, startAt, deslocamentoMin, settings) < FireTime(Manha, startAt, deslocamentoMin, settings)
    ensures FireTime(Vespera, startAt, deslocamentoMin, settings) < startAt
  {
    hide FireTime;
    StageDays(startAt, deslocamentoMin, settings);
    StartOfDayBounds(startAt);
  }
}
