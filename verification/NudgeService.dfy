/** Nudges, their menus and the answers as written: repositories, the check's loop and the command handlers. */
module NudgeServices {
  import opened Common
  import opened Calendar
  import opened ZonedTime
  import opened ResponsePattern
  import opened TaskTables
  import opened TaskServices
  import opened OutboxTable
  import opened OutboxProcessing
  import opened Priorities
  import opened MenuTables
  import opened MenuSafety

  class PendingMenuRepository {
    var menus: seq<Menu>

    constructor ()
      ensures menus == []
    {
      menus := [];
    }

    method Record(origin: Origin, itemId: nat) returns (id: nat)
      modifies this
      ensures id == |old(menus)| && menus == old(menus) + [Menu(origin, itemId, None)]
    {
      id := |menus|;
      menus := menus + [Menu(origin, itemId, None)];
    }

    method MarkResolved(id: nat, at: int)
      requires id < |menus|
      modifies this
      ensures menus == old(menus)[id := old(menus)[id].(resolvedAt := Some(at))]
    {
      menus := menus[id := menus[id].(resolvedAt := Some(at))];
    }
  }

  class ChargesRepository {
    var charges: seq<Charge>

    constructor ()
      ensures charges == []
    {
      charges := [];
    }

    method Record(itemId: nat, chargedOn: Date) returns (id: nat)
      modifies this
      ensures id == |old(charges)| && charges == old(charges) + [Charge(itemId, chargedOn, None)]
    {
      id := |charges|;
      charges := charges + [Charge(itemId, chargedOn, None)];
    }

    method MarkResponded(id: nat, at: int)
      requires id < |charges|
      modifies this
      ensures charges == old(charges)[id := old(charges)[id].(respondedAt := Some(at))]
    {
      charges := charges[id := charges[id].(respondedAt := Some(at))];
    }
  }

  class PatternsRepository {
    var patterns: seq<ResponseSample>

    constructor ()
      ensures patterns == []
    {
      patterns := [];
    }

    method RecordResponseWindow(weekday: int, hour: int)
      modifies this
      ensures patterns == old(patterns) + [ResponseSample(weekday, hour)]
    {
      patterns := patterns + [ResponseSample(weekday, hour)];
    }
  }

  class NudgeService {
    const tables: Tables
    const items: ItemService
    const menus: PendingMenuRepository
    const charges: ChargesRepository
    const patterns: PatternsRepository
    const outbox: OutboxRepository
    var clock: int

    ghost predicate Wired() {
      items.tables == tables && items.chains.tables == tables
    }

    ghost function State(): Desk
      reads this, tables, menus, charges, patterns, outbox
    {
      Desk(tables.State(), menus.menus, charges.charges, outbox.rows, patterns.patterns, clock)
    }

    constructor (tables: Tables, items: ItemService, menus: PendingMenuRepository, charges: ChargesRepository,
                 patterns: PatternsRepository, outbox: OutboxRepository, clock: int)
      requires items.tables == tables && items.chains.tables == tables
      ensures Wired() && clock == this.clock && this.tables == tables && this.items == items && this.menus == menus
      ensures this.charges == charges && this.patterns == patterns && this.outbox == outbox
    {
      this.tables, this.items, this.menus, this.charges := tables, items, menus, charges;
      this.patterns, this.outbox, this.clock := patterns, outbox, clock;
    }

    /** The active items, in an order the query allows. */
    method ListActive() returns (active: seq<Ranked>)
      ensures IsActiveList(tables.items, active)
    {
      ActiveItemsListed(tables.items);
      active := ActiveBelow(tables.items, |tables.items|);
    }

    /** The `cobranca` job. The global budget is read again before each nudge. */
    method CheckAndSendDue(settings: NudgeSettings) returns (ghost active: seq<Ranked>)
      modifies menus, charges, outbox
      ensures IsActiveList(tables.items, active)
      ensures State() == MenuTables.CheckAndSendDue(old(State()), settings, active)
      ensures ChargesInOrder(old(State()), settings, active, State())
    {
      hide Eligible, ZonedDayKey, CountProactiveCommittedSince, StartOfToday, IsActiveList, ChargesInOrder;
      var key := ZonedDayKey(clock);
      var listed := ListActive();
      active := listed;
      CheckChargesInOrder(State(), settings, listed);
      var eligible := Eligible(Desk(Db(tables.items, tables.events, tables.jobs), menus.menus, charges.charges,
                                    outbox.rows, patterns.patterns, clock), settings, listed);
      for i := 0 to |eligible|
        invariant SendCharges(State(), eligible[i..], settings) == SendCharges(old(State()), eligible, settings)
        invariant tables.State() == old(tables.State()) && patterns.patterns == old(patterns.patterns)
      {
        var committedToday := CountProactiveCommittedSince(outbox.rows, StartOfToday(clock));
        if ProactiveCapReached(committedToday, settings.dailyProactiveCap) {
          return;
        }
        assert eligible[i..][1..] == eligible[i + 1..];
        var _ := charges.Record(eligible[i].id, key);
        var _ := outbox.Insert(true, false, clock);
        var _ := menus.Record(Cobranca, eligible[i].id);
      }
      assert eligible[|eligible|..] == [];
    }

    method RecordResponse()
      modifies menus, charges, patterns
      ensures State() == MenuTables.RecordResponse(old(State()))
    {
      hide NewestMenu, NewestCharge, ToZonedParts, UtcWeekday, ZonedTimeToUtc, StartOfZonedDay;
      var menu := NewestMenu(menus.menus);
      if menu.Some? {
        menus.MarkResolved(menu.value, clock);
      }
      var pending := NewestCharge(charges.charges);
      if pending.None? {
        return;
      }
      charges.MarkResponded(pending.value, clock);
      patterns.RecordResponseWindow(ZonedWeekday(clock), ToZonedParts(clock).hour);
    }

    method FindPendingItemId(origin: Origin) returns (itemId: Option<nat>)
      ensures itemId == PendingItem(State(), origin)
    {
      hide NewestMenu;
      var menu := NewestMenu(menus.menus);
      if menu.None? || menus.menus[menu.value].origin != origin {
        return None;
      }
      return Some(menus.menus[menu.value].itemId);
    }

    method ApplyReschedule(itemId: nat, settings: AnswerSettings)
      requires Wired()
      modifies tables
      ensures tables.State() == Apply(old(tables.State()),
        Snooze(itemId, Some(RescheduleProposal(
          RecentWindows(patterns.patterns, 10), settings.fallbackHour, settings.fallbackMinute, clock))),
        settings.env.(now := clock))
      ensures (forall s <- patterns.patterns :: ValidSample(s)) ==>
        exists dueAt ::
          && ProposedFor(LastTen(patterns.patterns), settings.fallbackHour, settings.fallbackMinute, clock, dueAt)
          && tables.State() == Apply(old(tables.State()), Snooze(itemId, Some(dueAt)), settings.env.(now := clock))
    {
      hide Apply, Try, RecentWindows, RescheduleProposal, ProposedFor, ValidSample;
      var samples := RecentWindows(patterns.patterns, 10);
      var proposedAt := RescheduleProposal(samples, settings.fallbackHour, settings.fallbackMinute, clock);
      var _ := items.Snooze(itemId, Some(proposedAt), settings.env.(now := clock));
      LastTenAreRecent(patterns.patterns);
      if forall s <- patterns.patterns :: ValidSample(s) {
        ProposalFollowsHabit(LastTen(patterns.patterns), settings.fallbackHour, settings.fallbackMinute, clock);
      }
    }

    /** Answer to a charge: 1 done, 2 reschedule, 3 drop. */
    method HandleCharge(digit: char, settings: AnswerSettings)
      requires Wired()
      modifies tables, menus, charges, patterns
      ensures State() == Handle(MenuCommand(Cobranca, digit), old(State()), settings)
    {
      hide Apply, Try, MenuTables.RecordResponse, NewestMenu, RecentWindows, RescheduleProposal, ChargedItemTerminal;
      var pending := FindPendingItemId(Cobranca);
      if pending.None? {
        return;
      }
      var itemId := pending.value;
      if ChargedItemTerminal(tables.items, itemId) {
        RecordResponse();
        return;
      }
      if digit == '1' {
        var _ := items.Complete(itemId, settings.env.(now := clock));
      } else if digit == '3' {
        var _ := items.Drop(itemId, settings.env.(now := clock));
      } else {
        ApplyReschedule(itemId, settings);
      }
      RecordResponse();
    }

    /** Resolves the newest menu before anything is done to its item. */
    method TakeMenu(origin: Origin) returns (itemId: Option<nat>)
      modifies menus
      ensures itemId == PendingItem(old(State()), origin)
      ensures State() == if itemId.None? then old(State()) else ResolveNewest(old(State()))
    {
      hide NewestMenu;
      itemId := FindPendingItemId(origin);
      if itemId.Some? {
        menus.MarkResolved(NewestMenu(menus.menus).value, clock);
      }
    }

    /** Answer to the review: 1 keep, 2 postpone a day, 3 drop. */
    method HandleReview(digit: char, settings: AnswerSettings)
      requires Wired()
      modifies tables, menus
      ensures State() == Handle(MenuCommand(Revisao, digit), old(State()), settings)
    {
      hide Apply, Try, NewestMenu;
      var pending := TakeMenu(Revisao);
      if pending.None? {
        return;
      }
      var itemId := pending.value;
      if itemId >= |tables.items| || !Listed(tables.items[itemId]) || digit == '1' {
        return;
      }
      if digit == '3' {
        var _ := items.Drop(itemId, settings.env.(now := clock));
      } else {
        var _ := items.Snooze(itemId, Some(clock + 1 * 24 * 60 * 60_000), settings.env.(now := clock));
      }
    }

    /** Answer to the hygiene proposal: 1 archive, 2 drop, 3 postpone a month. */
    method HandleHygiene(digit: char, settings: AnswerSettings)
      requires Wired()
      modifies tables, menus
      ensures State() == Handle(MenuCommand(Higiene, digit), old(State()), settings)
    {
      hide Apply, Try, NewestMenu, ZonedTimeToUtc, AddZonedMonths, ToZonedParts;
      var pending := TakeMenu(Higiene);
      if pending.None? {
        return;
      }
      var itemId := pending.value;
      if itemId >= |tables.items| || !Listed(tables.items[itemId]) {
        return;
      }
      if digit == '1' {
        var _ := items.Archive(itemId, settings.env.(now := clock));
      } else if digit == '2' {
        var _ := items.Drop(itemId, settings.env.(now := clock));
      } else {
        var nextMonth := AddZonedMonths(ToZonedParts(clock), 1);
        var _ := items.Snooze(itemId, Some(ZonedTimeToUtc(nextMonth)), settings.env.(now := clock));
      }
    }
  }
}
