/** The numbered-menu stack, the charges behind it, and the desk of tables a nudge touches. */
module MenuTables {
  import opened Common
  import opened Counting
  import opened Calendar
  import opened ZonedTime
  import opened ResponsePattern
  import opened TaskTables
  import opened OutboxTable
  import opened Priorities

  datatype Origin = Cobranca | Revisao | Higiene

  datatype Menu = Menu(origin: Origin, itemId: nat, resolvedAt: Option<int>)

  /** `chargedOn` is the civil date, the key `YYYY-MM-DD` of the table. */
  datatype Charge = Charge(itemId: nat, chargedOn: Date, respondedAt: Option<int>)

  datatype Desk = Desk(
    db: Db, menus: seq<Menu>, charges: seq<Charge>, outbox: seq<Row>, patterns: seq<ResponseSample>, now: int)

  // ---- The two stacks -----------------------------------------------------

  /** `WHERE resolved_at IS NULL ORDER BY id DESC LIMIT 1`. */
  function NewestMenu(menus: seq<Menu>): (r: Option<nat>)
    ensures r.Some? ==> r.value < |menus| && menus[r.value].resolvedAt.None?
    ensures r.Some? ==> forall i :: r.value < i < |menus| ==> menus[i].resolvedAt.Some?
    ensures r.None? ==> forall i :: 0 <= i < |menus| ==> menus[i].resolvedAt.Some?
  {
    if menus == [] then None
    else if menus[|menus| - 1].resolvedAt.None? then Some(|menus| - 1)
    else NewestMenu(menus[..|menus| - 1])
  }

  function NewestCharge(charges: seq<Charge>): (r: Option<nat>)
    ensures r.Some? ==> r.value < |charges| && charges[r.value].respondedAt.None?
    ensures r.Some? ==> forall i :: r.value < i < |charges| ==> charges[i].respondedAt.Some?
    ensures r.None? ==> forall i :: 0 <= i < |charges| ==> charges[i].respondedAt.Some?
  {
    if charges == [] then None
    else if charges[|charges| - 1].respondedAt.None? then Some(|charges| - 1)
    else NewestCharge(charges[..|charges| - 1])
  }

  function ResolveMenu(d: Desk, id: nat): Desk
    requires id < |d.menus|
  {
    d.(menus := d.menus[id := d.menus[id].(resolvedAt := Some(d.now))])
  }

  function ResolveNewest(d: Desk): Desk {
    match NewestMenu(d.menus) case None => d case Some(id) => ResolveMenu(d, id)
  }

  /** Pops the newest menu, whatever its origin, and the newest charge, and records the response window. */
  function RecordResponse(d: Desk): Desk {
    var popped := ResolveNewest(d);
    match NewestCharge(d.charges)
    case None => popped
    case Some(id) =>
      popped.(charges := d.charges[id := d.charges[id].(respondedAt := Some(d.now))],
              patterns := d.patterns + [ResponseSample(ZonedWeekday(d.now), ToZonedParts(d.now).hour)])
  }

  // ---- Sending nudges -----------------------------------------------------

  function ZonedDayKey(now: int): Date {
    DateOf(ToZonedParts(now))
  }

  function CountChargedOn(charges: seq<Charge>, key: Date): nat {
    Count(charges, (c: Charge) => c.chargedOn == key)
  }

  function ItemIdsChargedOn(charges: seq<Charge>, key: Date): set<nat> {
    set i | 0 <= i < |charges| && charges[i].chargedOn == key :: charges[i].itemId
  }

  predicate Listed(item: Item) {
    item.status == Ativa || item.status == EmAndamento || item.status == Adiada
  }

  function RankedRow(items: seq<Item>, id: nat): Ranked
    requires id < |items|
  {
    Ranked(id, items[id].priority, items[id].dueAt)
  }

  /**
   * What the query for active items may return: each of them once, nearest date
   * first and undated ones last. Its last key is a creation time in whole
   * seconds, so rows of the same date may come in either order.
   */
  predicate IsActiveList(items: seq<Item>, active: seq<Ranked>) {
    && DistinctIds(active)
    && (forall x <- active :: x.id < |items| && Listed(items[x.id]) && x == RankedRow(items, x.id))
    && (forall id :: 0 <= id < |items| && Listed(items[id]) ==> RankedRow(items, id) in active)
    && (forall i, j :: 0 <= i < j < |active| ==> !DueBefore(active[j].dueAt, active[i].dueAt))
  }

  /** Caps and the return-mode flag, as read by one check. */
  datatype NudgeSettings = NudgeSettings(dailyChargeCap: int, dailyProactiveCap: nat, returnModeSuppressed: bool)

  function Eligible(d: Desk, settings: NudgeSettings, active: seq<Ranked>): seq<Ranked> {
    var key := ZonedDayKey(d.now);
    var top := SelectTopPriorities(active, 3);
    SelectNudgeEligible(active,
      NudgeContext(d.now, CountChargedOn(d.charges, key), settings.dailyChargeCap, settings.returnModeSuppressed,
                   ItemIdsChargedOn(d.charges, key), set x | x in top :: x.id))
  }

  /** A charge, its proactive message and its menu. */
  function SendCharge(d: Desk, itemId: nat): Desk {
    d.(charges := d.charges + [Charge(itemId, ZonedDayKey(d.now), None)],
       outbox := d.outbox + [NewRow(true, false, d.now)],
       menus := d.menus + [Menu(Cobranca, itemId, None)])
  }

  /** Charges in order until the global cap is committed. */
  function SendCharges(d: Desk, eligible: seq<Ranked>, settings: NudgeSettings): Desk
    decreases |eligible|
  {
    if eligible == []
       || ProactiveCapReached(CountProactiveCommittedSince(d.outbox, StartOfToday(d.now)), settings.dailyProactiveCap)
    then d
    else SendCharges(SendCharge(d, eligible[0].id), eligible[1..], settings)
  }

  /** One check on the active items as the query listed them. */
  function CheckAndSendDue(d: Desk, settings: NudgeSettings, active: seq<Ranked>): Desk {
    if IsActiveList(d.db.items, active) then SendCharges(d, Eligible(d, settings, active), settings) else d
  }

  /** The global cap leaves room for one more nudge. */
  predicate HasRoom(d: Desk, settings: NudgeSettings) {
    !ProactiveCapReached(CountProactiveCommittedSince(d.outbox, StartOfToday(d.now)), settings.dailyProactiveCap)
  }

  /** A nudge cut short after its charge and, if `messageToo`, its message: the menu is missing. */
  function HalfCharge(d: Desk, itemId: nat, messageToo: bool): Desk {
    var full := SendCharge(d, itemId);
    d.(charges := full.charges, outbox := if messageToo then full.outbox else d.outbox)
  }

  /** A check that dies after `sent` nudges, inside the next one if there is one. */
  function TornCheck(d: Desk, eligible: seq<Ranked>, settings: NudgeSettings, sent: nat, messageToo: bool): Desk {
    if sent >= |eligible| then SendCharges(d, eligible, settings)
    else
      var before := SendCharges(d, eligible[..sent], settings);
      if HasRoom(before, settings) then HalfCharge(before, eligible[sent].id, messageToo) else before
  }

  /** A response cut short after its menu was popped and, if `chargeToo`, its charge: the window is not recorded. */
  function HalfResponse(d: Desk, chargeToo: bool): Desk {
    match NewestMenu(d.menus)
    case None => d
    case Some(id) =>
      var popped := ResolveMenu(d, id);
      if d.menus[id].origin == Cobranca && chargeToo then popped.(charges := RecordResponse(d).charges) else popped
  }

  // ---- The nine menu commands --------------------------------------------

  datatype MenuCommand = MenuCommand(origin: Origin, digit: char)

  const COMMANDS: seq<MenuCommand> := [
    MenuCommand(Higiene, '1'), MenuCommand(Higiene, '2'), MenuCommand(Higiene, '3'),
    MenuCommand(Cobranca, '1'), MenuCommand(Cobranca, '2'), MenuCommand(Cobranca, '3'),
    MenuCommand(Revisao, '1'), MenuCommand(Revisao, '2'), MenuCommand(Revisao, '3')]

  /** Settings a handler may read. */
  datatype AnswerSettings = AnswerSettings(env: Env, fallbackHour: int, fallbackMinute: int)

  function PendingItem(d: Desk, origin: Origin): Option<nat> {
    match NewestMenu(d.menus)
    case None => None
    case Some(id) => if d.menus[id].origin == origin then Some(d.menus[id].itemId) else None
  }

  /** `text` is the message already trimmed. */
  predicate Matches(c: MenuCommand, text: string, d: Desk) {
    text == [c.digit] && PendingItem(d, c.origin).Some?
  }

  predicate ChargedItemTerminal(items: seq<Item>, itemId: nat) {
    itemId >= |items|
    || (!CanTransition(items[itemId].status, Feita) && !CanTransition(items[itemId].status, Dropada)
        && !CanTransition(items[itemId].status, Adiada))
  }

  /** The item command a menu answer stands for, if any. */
  function Effect(c: MenuCommand, d: Desk, itemId: nat, settings: AnswerSettings): Option<Command> {
    match c.origin
    case Cobranca =>
      if ChargedItemTerminal(d.db.items, itemId) then None
      else if c.digit == '1' then Some(Complete(itemId))
      else if c.digit == '3' then Some(Drop(itemId))
      else
        var samples := RecentWindows(d.patterns, 10);
        Some(Snooze(itemId,
          Some(RescheduleProposal(samples, settings.fallbackHour, settings.fallbackMinute, d.now))))
    case Revisao =>
      if itemId >= |d.db.items| || !Listed(d.db.items[itemId]) then None
      else if c.digit == '1' then None
      else if c.digit == '3' then Some(Drop(itemId))
      else Some(Snooze(itemId, Some(d.now + 1 * 24 * 60 * 60_000)))
    case Higiene =>
      if itemId >= |d.db.items| || !Listed(d.db.items[itemId]) then None
      else if c.digit == '1' then Some(Archive(itemId))
      else if c.digit == '2' then Some(Drop(itemId))
      else Some(Snooze(itemId, Some(ZonedTimeToUtc(AddZonedMonths(ToZonedParts(d.now), 1)))))
  }

  function Issue(d: Desk, effect: Option<Command>, settings: AnswerSettings): Desk {
    match effect case None => d case Some(c) => d.(db := Apply(d.db, c, settings.env.(now := d.now)))
  }

  /** A charge answer acts on the item and pops both stacks; the others pop the menu and act on the item. */
  function Handle(c: MenuCommand, d: Desk, settings: AnswerSettings): Desk {
    match PendingItem(d, c.origin)
    case None => d
    case Some(itemId) =>
      var acted := Issue(d, Effect(c, d, itemId, settings), settings);
      if c.origin == Cobranca then RecordResponse(acted) else ResolveNewest(acted)
  }
}
