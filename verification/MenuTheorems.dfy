/** The promises about nudges and menu answers, over every run. */
module MenuTheorems {
  import opened Common
  import opened Counting
  import opened Calendar
  import opened ZonedTime
  import opened Recurrence
  import opened ResponsePattern
  import opened TaskTables
  import opened ChainInvariants
  import opened CommandOutcomes
  import opened StoreChanges
  import opened TornCommands
  import opened OutboxTable
  import opened Priorities
  import opened MenuTables
  import opened MenuSafety

  datatype DeskEvent =
    | Check(nudge: NudgeSettings, active: seq<Ranked>)   // the `cobranca` job, on the active items as listed
    | Ask(review: bool, itemId: nat)                     // the review job asks its question
    | Answer(text: string, settings: AnswerSettings)
    | ItemCommand(command: Command, env: Env)            // any other change to the task store
    | OutboxChange(rows: seq<Row>)                       // any other change to the outbox
    | Elapse(ms: nat)
    // The process dies inside a check, inside a response, or inside a task command, an answer's included.
    | CrashInCheck(nudge: NudgeSettings, active: seq<Ranked>, sent: nat, messageToo: bool)
    | CrashInResponse(chargeToo: bool)
    | CrashInCommand(tear: Tear, env: Env)

  /** The first command that matches handles the message, as the router picks it. */
  function Route(commands: seq<MenuCommand>, text: string, d: Desk): Option<MenuCommand> {
    if commands == [] then None
    else if Matches(commands[0], text, d) then Some(commands[0])
    else Route(commands[1..], text, d)
  }

  function Answered(d: Desk, commands: seq<MenuCommand>, text: string, settings: AnswerSettings): Desk {
    match Route(commands, text, d) case None => d case Some(c) => Handle(c, d, settings)
  }

  function Next(d: Desk, e: DeskEvent): Desk {
    match e
    case Check(settings, active) => CheckAndSendDue(d, settings, active)
    case Ask(review, itemId) => d.(menus := d.menus + [Menu(if review then Revisao else Higiene, itemId, None)])
    case Answer(text, settings) => Answered(d, COMMANDS, text, settings)
    case ItemCommand(c, env) => d.(db := Apply(d.db, c, env))
    case OutboxChange(rows) => d.(outbox := rows)
    case Elapse(ms) => d.(now := d.now + ms)
    case CrashInCheck(settings, active, sent, messageToo) =>
      if IsActiveList(d.db.items, active) then TornCheck(d, Eligible(d, settings, active), settings, sent, messageToo)
      else d
    case CrashInResponse(chargeToo) => HalfResponse(d, chargeToo)
    case CrashInCommand(tear, env) => d.(db := Torn(d.db, tear, env))
  }

  function Run(d: Desk, events: seq<DeskEvent>): Desk {
    if events == [] then d else Next(Run(d, events[..|events| - 1]), events[|events| - 1])
  }

  function Init(now: int): Desk {
    Desk(Db([], [], []), [], [], [], [], now)
  }

  // ---- What every run keeps ----------------------------------------------

  predicate CapIs(e: DeskEvent, cap: int) {
    (e.Check? || e.CrashInCheck?) ==> e.nudge.dailyChargeCap == cap
  }

  lemma HalfResponseCapped(d: Desk, chargeToo: bool, cap: int)
    requires ChargesCapped(d.charges, cap)
    ensures ChargesCapped(HalfResponse(d, chargeToo).charges, cap)
  {
    hide ChargesCapped, NewestMenu, RecordResponse;
    ResponseCapped(d, cap);
  }

  lemma StepCapped(d: Desk, e: DeskEvent, cap: int)
    requires ChargesCapped(d.charges, cap) && CapIs(e, cap)
    ensures ChargesCapped(Next(d, e).charges, cap)
  {
    hide ChargesCapped, Apply, CheckAndSendDue, Route, Handle, TornCheck, HalfResponse, Torn, Eligible, IsActiveList;
    match e
    case Check(settings, active) => CheckCapped(d, settings, active);
    case Answer(text, settings) =>
      var c := Route(COMMANDS, text, d);
      if c.Some? { HandleCapped(c.value, d, settings, cap); }
    case CrashInCheck(settings, active, sent, messageToo) =>
      if IsActiveList(d.db.items, active) { TornCheckCapped(d, settings, active, sent, messageToo); }
    case CrashInResponse(chargeToo) => HalfResponseCapped(d, chargeToo, cap);
    case _ =>
  }

  lemma {:induction false} RunCapped(d: Desk, events: seq<DeskEvent>, cap: int)
    requires ChargesCapped(d.charges, cap) && forall e <- events :: CapIs(e, cap)
    ensures ChargesCapped(Run(d, events).charges, cap)
  {
    hide ChargesCapped, Next;
    if events != [] {
      RunCapped(d, events[..|events| - 1], cap);
      StepCapped(Run(d, events[..|events| - 1]), events[|events| - 1], cap);
    }
  }

  predicate SamplesValid(d: Desk) {
    forall s <- d.patterns :: ValidSample(s)
  }

  lemma StepSamples(d: Desk, e: DeskEvent)
    requires SamplesValid(d)
    ensures SamplesValid(Next(d, e))
  {
    hide ValidSample, Apply, SendCharges, Route, Handle, TornCheck, Torn, Eligible, IsActiveList, NewestMenu,
         RecordResponse;
    match e
    case Check(settings, active) => SendChargesExactly(d, Eligible(d, settings, active), settings);
    case Answer(text, settings) =>
      var c := Route(COMMANDS, text, d);
      if c.Some? { HandlePatterns(c.value, d, settings); }
    case CrashInCheck(settings, active, sent, messageToo) =>
      var _ := TornCheckCharges(d, Eligible(d, settings, active), settings, sent, messageToo);
    case _ =>
  }

  lemma {:induction false} RunSamples(d: Desk, events: seq<DeskEvent>)
    requires SamplesValid(d)
    ensures SamplesValid(Run(d, events))
  {
    hide SamplesValid, Next;
    if events != [] {
      RunSamples(d, events[..|events| - 1]);
      StepSamples(Run(d, events[..|events| - 1]), events[|events| - 1]);
    }
  }

  // ---- The task store -----------------------------------------------------

  /** Whenever the process died inside a task command, it was at a harmless point. */
  predicate HarmlessTears(d: Desk, events: seq<DeskEvent>) {
    events == [] ||
    var before, last := events[..|events| - 1], events[|events| - 1];
    HarmlessTears(d, before) && (last.CrashInCommand? ==> Harmless(Run(d, before).db, last.tear))
  }

  lemma StepStore(d: Desk, e: DeskEvent)
    requires StoreInv(d.db) && (e.CrashInCommand? ==> Harmless(d.db, e.tear))
    ensures StoreInv(Next(d, e).db)
  {
    hide StoreInv, Apply, Route, Handle, TornCheck, HalfResponse, Torn, Harmless, Eligible, IsActiveList, SendCharges;
    match e
    case Check(settings, active) => SendChargesExactly(d, Eligible(d, settings, active), settings);
    case Answer(text, settings) =>
      var c := Route(COMMANDS, text, d);
      if c.Some? { HandleStore(c.value, d, settings); }
    case ItemCommand(c, env) => CommandKeeps(d.db, c, env);
    case CrashInCheck(settings, active, sent, messageToo) =>
      var _ := TornCheckCharges(d, Eligible(d, settings, active), settings, sent, messageToo);
    case CrashInResponse(chargeToo) => HalfResponseKeepsStore(d, chargeToo);
    case CrashInCommand(tear, env) => TornIff(d.db, tear, env);
    case _ =>
  }

  lemma HalfResponseKeepsStore(d: Desk, chargeToo: bool)
    ensures HalfResponse(d, chargeToo).db == d.db
  {
    hide NewestMenu, RecordResponse;
  }

  lemma {:induction false} RunStore(d: Desk, events: seq<DeskEvent>)
    requires StoreInv(d.db) && HarmlessTears(d, events)
    ensures StoreInv(Run(d, events).db)
  {
    hide StoreInv, Next, Harmless;
    if events != [] {
      RunStore(d, events[..|events| - 1]);
      StepStore(Run(d, events[..|events| - 1]), events[|events| - 1]);
    }
  }

  // ---- The two stacks -----------------------------------------------------

  /** A crash between the charge and the menu of a nudge, or between the two pops of a response. */
  predicate Tears(d: Desk, e: DeskEvent) {
    match e
    case CrashInCheck(settings, active, sent, _) =>
      && IsActiveList(d.db.items, active)
      && sent < |Eligible(d, settings, active)|
      && HasRoom(SendCharges(d, Eligible(d, settings, active)[..sent], settings), settings)
    case CrashInResponse(chargeToo) =>
      !chargeToo && NewestMenu(d.menus).Some? && d.menus[NewestMenu(d.menus).value].origin == Cobranca
    case _ => false
  }

  function TearsIn(d: Desk, events: seq<DeskEvent>): nat {
    if events == [] then 0
    else
      var before := events[..|events| - 1];
      TearsIn(d, before) + if Tears(Run(d, before), events[|events| - 1]) then 1 else 0
  }

  /** The charges are ahead of the menus by `k`, and aligned with them when it is none. */
  predicate Ahead(d: Desk, k: nat) {
    |ChargeItems(d.charges)| == |MenuItems(d.menus)| + k && (k == 0 ==> Aligned(d))
  }

  lemma {:induction false} CheckAhead(d: Desk, eligible: seq<Ranked>, settings: NudgeSettings, k: nat)
    requires Ahead(d, k)
    ensures Ahead(SendCharges(d, eligible, settings), k)
    decreases |eligible|
  {
    hide Ahead, SendCharge, CountProactiveCommittedSince, StartOfToday;
    if eligible != [] {
      SendChargeAhead(d, eligible[0].id, k);
      CheckAhead(SendCharge(d, eligible[0].id), eligible[1..], settings, k);
    }
  }

  lemma SendChargeAhead(d: Desk, itemId: nat, k: nat)
    requires Ahead(d, k)
    ensures Ahead(SendCharge(d, itemId), k)
  {
    hide ZonedDayKey;
    var n := SendCharge(d, itemId);
    assert n.menus[..|d.menus|] == d.menus && n.charges[..|d.charges|] == d.charges;
  }

  lemma HalfChargeAhead(d: Desk, itemId: nat, messageToo: bool, k: nat)
    requires Ahead(d, k)
    ensures Ahead(HalfCharge(d, itemId, messageToo), k + 1)
  {
    hide ZonedDayKey;
    var n := HalfCharge(d, itemId, messageToo);
    assert n.charges[..|d.charges|] == d.charges;
  }

  lemma AskAhead(d: Desk, origin: Origin, itemId: nat, k: nat)
    requires Ahead(d, k) && origin != Cobranca
    ensures Ahead(d.(menus := d.menus + [Menu(origin, itemId, None)]), k)
  {
    hide ChargeItems;
    var menus := d.menus + [Menu(origin, itemId, None)];
    assert menus[..|menus| - 1] == d.menus;
    assert MenuItems(menus) == MenuItems(d.menus);
  }

  /** A full response pops one of each; the first half of it pops the menu alone. */
  lemma ResponseAhead(d: Desk, k: nat)
    requires Ahead(d, k) && NewestMenu(d.menus).Some? && d.menus[NewestMenu(d.menus).value].origin == Cobranca
    ensures Ahead(RecordResponse(d), k) && Ahead(ResolveNewest(d), k + 1)
  {
    hide MenuItems, ChargeItems, NewestMenu, NewestCharge, ZonedWeekday, ToZonedParts;
    var m := NewestMenu(d.menus).value;
    PopMenu(d.menus, m, d.now);
    NoChargeNoItems(d.charges);
    PopCharge(d.charges, NewestCharge(d.charges).value, d.now);
    if k == 0 {
      ResponsePopsSameItem(d);
    }
  }

  lemma ResolveOtherAhead(d: Desk, k: nat)
    requires Ahead(d, k) && NewestMenu(d.menus).Some? && d.menus[NewestMenu(d.menus).value].origin != Cobranca
    ensures Ahead(ResolveNewest(d), k)
  {
    hide NewestMenu, MenuItems, ChargeItems;
    PopMenu(d.menus, NewestMenu(d.menus).value, d.now);
  }

  lemma HandleAhead(c: MenuCommand, d: Desk, settings: AnswerSettings, k: nat)
    requires Ahead(d, k)
    ensures Ahead(Handle(c, d, settings), k)
  {
    hide Issue, Effect, RecordResponse, ResolveNewest, NewestMenu, MenuItems, ChargeItems;
    match PendingItem(d, c.origin)
    case None =>
    case Some(itemId) =>
      var acted := Issue(d, Effect(c, d, itemId, settings), settings);
      IssueKeepsTables(d, Effect(c, d, itemId, settings), settings);
      if c.origin == Cobranca { ResponseAhead(acted, k); } else { ResolveOtherAhead(acted, k); }
  }

  lemma HalfResponseAhead(d: Desk, chargeToo: bool, k: nat)
    requires Ahead(d, k)
    ensures Ahead(HalfResponse(d, chargeToo), if Tears(d, CrashInResponse(chargeToo)) then k + 1 else k)
  {
    hide NewestMenu, MenuItems, ChargeItems, RecordResponse;
    if NewestMenu(d.menus).Some? {
      if d.menus[NewestMenu(d.menus).value].origin == Cobranca {
        ResponseAhead(d, k);
        ResponseMenus(d);
      } else {
        ResolveOtherAhead(d, k);
      }
    }
  }

  lemma ResponseMenus(d: Desk)
    ensures RecordResponse(d).menus == ResolveNewest(d).menus
  {
    hide NewestMenu, NewestCharge, ZonedWeekday, ToZonedParts;
  }

  lemma StepAhead(d: Desk, e: DeskEvent, k: nat)
    requires Ahead(d, k)
    ensures Ahead(Next(d, e), if Tears(d, e) then k + 1 else k)
  {
    hide MenuItems, ChargeItems, Apply, Route, Handle, SendCharges, SendCharge, HalfCharge, HalfResponse, Torn,
         Eligible,
         IsActiveList, HasRoom, NewestMenu;
    match e
    case Check(settings, active) => CheckAhead(d, Eligible(d, settings, active), settings, k);
    case Ask(review, itemId) => AskAhead(d, if review then Revisao else Higiene, itemId, k);
    case Answer(text, settings) =>
      var c := Route(COMMANDS, text, d);
      if c.Some? { HandleAhead(c.value, d, settings, k); }
    case CrashInCheck(settings, active, sent, messageToo) =>
      var eligible := Eligible(d, settings, active);
      CheckAhead(d, eligible, settings, k);
      if sent < |eligible| {
        CheckAhead(d, eligible[..sent], settings, k);
        HalfChargeAhead(SendCharges(d, eligible[..sent], settings), eligible[sent].id, messageToo, k);
      }
    case CrashInResponse(chargeToo) => HalfResponseAhead(d, chargeToo, k);
    case _ =>
  }

  lemma {:induction false} RunAhead(now: int, events: seq<DeskEvent>)
    ensures Ahead(Run(Init(now), events), TearsIn(Init(now), events))
  {
    hide Next, Tears, MenuItems, ChargeItems, Aligned;
    if events == [] {
      assert Ahead(Init(now), 0) by { InitAhead(now); }
    } else {
      RunAhead(now, events[..|events| - 1]);
      var d := Run(Init(now), events[..|events| - 1]);
      StepAhead(d, events[|events| - 1], TearsIn(Init(now), events[..|events| - 1]));
    }
  }

  lemma InitAhead(now: int)
    ensures Ahead(Init(now), 0)
  {
  }

  // ---- Theorems -----------------------------------------------------------

  /**
   * However review and hygiene questions interleave with charges and answers,
   * and wherever the process dies: the items of the unresolved charge menus are,
   * in order, the items of the charges without a response, if and only if no
   * crash fell between a charge and its menu, or between the two pops of a
   * response. Each such crash puts the charges one further ahead, for good.
   */
  lemma StacksStayAligned(now: int, events: seq<DeskEvent>)
    ensures var d := Run(Init(now), events);
      && (MenuItems(d.menus) == ChargeItems(d.charges) <==> TearsIn(Init(now), events) == 0)
      && |ChargeItems(d.charges)| == |MenuItems(d.menus)| + TearsIn(Init(now), events)
  {
    hide Run, MenuItems, ChargeItems, TearsIn;
    RunAhead(now, events);
  }

  lemma NothingCharged(now: int, cap: int)
    ensures ChargesCapped(Init(now).charges, cap)
  {
  }

  /** With a constant cap, no local day has more charges than it, and no item is charged twice on one day. */
  lemma DailyChargesCapped(now: int, events: seq<DeskEvent>, cap: int, key: Date)
    requires forall e <- events :: CapIs(e, cap)
    ensures var charges := Run(Init(now), events).charges;
      && CountChargedOn(charges, key) <= (if cap >= 0 then cap else 0)
      && forall i, j :: 0 <= i < j < |charges| && charges[i].chargedOn == charges[j].chargedOn
           ==> charges[i].itemId != charges[j].itemId
  {
    hide Run, CountChargedOn;
    assert ChargesCapped(Init(now).charges, cap) by { NothingCharged(now, cap); }
    RunCapped(Init(now), events, cap);
  }

  /** The dates charges are keyed by tell local days apart, and only local days. */
  lemma DayKeyIsLocalDay(a: int, b: int)
    ensures ZonedDayKey(a) == ZonedDayKey(b) <==> LocalDay(a) == LocalDay(b)
  {
    SameDateIffSameLocalDay(a, b);
  }

  /** Nudges of a check never take the committed proactive messages of the day past the global cap. */
  lemma CheckRespectsGlobalCap(d: Desk, settings: NudgeSettings, active: seq<Ranked>)
    ensures var n := CheckAndSendDue(d, settings, active);
      var added := |n.outbox| - |d.outbox|;
      && added == |n.charges| - |d.charges| == |n.menus| - |d.menus| >= 0
      && (added > 0 ==>
            CountProactiveCommittedSince(d.outbox, StartOfToday(d.now)) + added <= settings.dailyProactiveCap)
      && (settings.returnModeSuppressed ==> n == d)
  {
    hide ZonedDayKey, CountProactiveCommittedSince, StartOfToday, NewRow, SendCharges, IsActiveList, CountChargedOn,
         ItemIdsChargedOn, SelectTopPriorities;
    SendChargesExactly(d, Eligible(d, settings, active), settings);
    if settings.returnModeSuppressed {
      NothingSent(d, ZonedDayKey(d.now));
    }
  }

  /**
   * Each new charge is of an active item, overdue or among the three top priorities,
   * and not charged before on that day.
   */
  lemma ChargesAreDue(d: Desk, settings: NudgeSettings, active: seq<Ranked>, j: nat)
    requires |d.charges| <= j < |CheckAndSendDue(d, settings, active).charges|
    ensures var c := CheckAndSendDue(d, settings, active).charges[j];
      && c.chargedOn == ZonedDayKey(d.now) && c.itemId < |d.db.items| && Listed(d.db.items[c.itemId])
      && c.itemId !in ItemIdsChargedOn(d.charges, ZonedDayKey(d.now))
      && (var dueAt := d.db.items[c.itemId].dueAt;
          (dueAt.Some? && dueAt.value < d.now) || exists x <- SelectTopPriorities(active, 3) :: x.id == c.itemId)
  {
    hide ZonedDayKey, CountChargedOn, ItemIdsChargedOn, SelectTopPriorities, SelectNudgeEligible, SendCharges,
         DueBefore,
         CountProactiveCommittedSince, StartOfToday, NewRow, Listed;
    var key, top := ZonedDayKey(d.now), SelectTopPriorities(active, 3);
    SelectionFits(active, NudgeContext(d.now, CountChargedOn(d.charges, key), settings.dailyChargeCap,
      settings.returnModeSuppressed, ItemIdsChargedOn(d.charges, key), set x | x in top :: x.id));
    SendChargesExactly(d, Eligible(d, settings, active), settings);
    assert Eligible(d, settings, active)[j - |d.charges|] in Eligible(d, settings, active);
  }

  // ---- Answers ------------------------------------------------------------

  predicate IsDigit(text: string) {
    text == ['1'] || text == ['2'] || text == ['3']
  }

  function MatchingIn(commands: seq<MenuCommand>, text: string, d: Desk): nat {
    Count(commands, (c: MenuCommand) => Matches(c, text, d))
  }

  lemma {:induction false} MatchAtMostOnce(commands: seq<MenuCommand>, text: string, d: Desk, want: MenuCommand)
    requires forall i, j :: 0 <= i < j < |commands| ==> commands[i] != commands[j]
    requires forall c <- commands :: Matches(c, text, d) <==> c == want
    ensures MatchingIn(commands, text, d) == if want in commands then 1 else 0
  {
    hide Matches;
    if commands != [] {
      var n := |commands| - 1;
      assert commands == commands[..n] + [commands[n]];
      MatchAtMostOnce(commands[..n], text, d, want);
    }
  }

  /**
   * A message matches one of the nine commands exactly when it is a bare 1, 2 or 3
   * and some menu is unresolved, and then only one.
   */
  lemma ExactlyOneCommandMatches(d: Desk, text: string)
    ensures MatchingIn(COMMANDS, text, d) == if IsDigit(text) && NewestMenu(d.menus).Some? then 1 else 0
  {
    hide NewestMenu;
    if IsDigit(text) && NewestMenu(d.menus).Some? {
      var want := MenuCommand(d.menus[NewestMenu(d.menus).value].origin, text[0]);
      WantedIsListed(want);
      MatchAtMostOnce(COMMANDS, text, d, want);
    } else {
      CountNone(COMMANDS, (c: MenuCommand) => Matches(c, text, d));
    }
  }

  lemma WantedIsListed(c: MenuCommand)
    requires c.digit == '1' || c.digit == '2' || c.digit == '3'
    ensures c in COMMANDS
  {
    var i := (match c.origin case Higiene => 0 case Cobranca => 3 case Revisao => 6)
           + if c.digit == '1' then 0 else if c.digit == '2' then 1 else 2;
    assert COMMANDS[i] == c;
  }

  /** The command routed is the one for the newest menu and the digit, so the order of the commands does not matter. */
  lemma {:induction false} RouteFinds(commands: seq<MenuCommand>, text: string, d: Desk, want: MenuCommand)
    requires want in commands && Matches(want, text, d)
    ensures Route(commands, text, d) == Some(want)
  {
    hide NewestMenu;
    if commands[0] != want {
      assert want in commands[1..];
      RouteFinds(commands[1..], text, d, want);
    }
  }

  /** Whatever the order of the nine commands, an answer has the same effect. */
  lemma CommandOrderIrrelevant(
      d: Desk, a: seq<MenuCommand>, b: seq<MenuCommand>, text: string, settings: AnswerSettings)
    requires forall c: MenuCommand :: c in a <==> c in b
    ensures Answered(d, a, text, settings) == Answered(d, b, text, settings)
  {
    hide Matches, Handle;
    match Route(a, text, d)
    case Some(c) =>
      RoutedMatches(a, text, d);
      RouteFinds(b, text, d, c);
    case None =>
      match Route(b, text, d)
      case None =>
      case Some(c) =>
        RoutedMatches(b, text, d);
        RouteFinds(a, text, d, c);
  }

  lemma {:induction false} RoutedMatches(commands: seq<MenuCommand>, text: string, d: Desk)
    ensures Route(commands, text, d).Some? ==>
      Route(commands, text, d).value in commands && Matches(Route(commands, text, d).value, text, d)
  {
    hide Matches;
    if commands != [] && !Matches(commands[0], text, d) {
      RoutedMatches(commands[1..], text, d);
    }
  }

  /**
   * An answered menu is the newest unresolved one, and it alone is resolved;
   * only its item can change; the item command is accepted; and when the menu is
   * a charge, the local weekday and hour are recorded, and the newest charge is marked
   * responded, which is the one of that item as long as no crash has torn the stacks.
   */
  lemma AnswerActsOnNewest(now: int, events: seq<DeskEvent>, c: MenuCommand, text: string, settings: AnswerSettings)
    requires Matches(c, text, Run(Init(now), events))
    ensures var d := Run(Init(now), events);
      var n := Handle(c, d, settings);
      var m := NewestMenu(d.menus).value;
      var itemId := d.menus[m].itemId;
      && c.origin == d.menus[m].origin
      && n.menus == d.menus[m := d.menus[m].(resolvedAt := Some(d.now))]
      && |n.db.items| == |d.db.items|
      && (forall j :: 0 <= j < |d.db.items| && j != itemId ==> n.db.items[j] == d.db.items[j])
      && (Effect(c, d, itemId, settings).Some? ==>
            Try(d.db, Effect(c, d, itemId, settings).value, settings.env.(now := d.now)).Success?)
      && (if c.origin == Cobranca
          then && NewestCharge(d.charges).Some? && n.patterns == d.patterns + [WindowAt(d.now)]
               && n.charges == d.charges[NewestCharge(d.charges).value :=
                    d.charges[NewestCharge(d.charges).value].(respondedAt := Some(d.now))]
               && (TearsIn(Init(now), events) == 0 ==> d.charges[NewestCharge(d.charges).value].itemId == itemId)
          else n.charges == d.charges && n.patterns == d.patterns)
  {
    hide Run, Aligned, NewestMenu, NewestCharge, Effect, Issue, ZonedWeekday, ToZonedParts, WindowAt, TearsIn,
         MenuItems, ChargeItems;
    var d := Run(Init(now), events);
    RunAhead(now, events);
    RecordedWindow(d.now);
    var itemId := d.menus[NewestMenu(d.menus).value].itemId;
    EffectIsAccepted(c, d, itemId, settings);
    IssueKeepsTables(d, Effect(c, d, itemId, settings), settings);
    IssueKeepsCount(c, d, itemId, settings);
    forall j: nat | j < |d.db.items| && j != itemId
      ensures Issue(d, Effect(c, d, itemId, settings), settings).db.items[j] == d.db.items[j]
    {
      EffectTouchesOneItem(c, d, itemId, settings, j);
    }
    if c.origin == Cobranca {
      PopMenu(d.menus, NewestMenu(d.menus).value, d.now);
      NoChargeNoItems(d.charges);
      if TearsIn(Init(now), events) == 0 {
        ResponsePopsSameItem(d);
      }
    }
  }

  /** The local weekday, Sunday first, and hour of an instant. */
  function WindowAt(now: int): ResponseSample {
    ResponseSample((LocalDay(now) + 4) % 7, (now - DayStart(LocalDay(now))) / 3_600_000)
  }

  lemma RecordedWindow(now: int)
    ensures ResponseSample(ZonedWeekday(now), ToZonedParts(now).hour) == WindowAt(now)
  {
    hide ZonedWeekday;
    WeekdayOfLocalDay(now);
  }

  /** Items the answer to a menu of this origin still acts on. */
  predicate StillOpen(origin: Origin, items: seq<Item>, itemId: nat) {
    && itemId < |items| && !Closed(items[itemId])
    && (origin != Cobranca ==> items[itemId].status != Inbox)
  }

  predicate DroppedItem(db: Db, itemId: nat) {
    itemId < |db.items| && db.items[itemId].status == Dropada && NoActiveEvent(db.events, itemId)
  }

  /** The item is postponed once more, to `dueAt`, and an appointment of it starts then. */
  predicate PostponedTo(before: Db, after: Db, itemId: nat, dueAt: int)
    requires itemId < |before.items|
  {
    && itemId < |after.items|
    && after.items[itemId]
       == before.items[itemId].(
            status := Adiada, dueAt := Some(dueAt), snoozeCount := before.items[itemId].snoozeCount + 1)
    && forall i :: 0 <= i < |after.events| && after.events[i].status == Ativo && after.events[i].itemId == itemId
         ==> after.events[i].startAt == dueAt
  }

  /**
   * What each option of each menu does to an item that is still open: done, moved to
   * the owner's habitual window, or dropped; kept, moved a day, or dropped; archived,
   * dropped, or moved a month.
   */
  ghost predicate OptionTaken(c: MenuCommand, d: Desk, n: Desk, itemId: nat, settings: AnswerSettings)
    requires itemId < |d.db.items|
  {
    match (c.origin, c.digit)
    case (Cobranca, '1') => StatusOnly(d.db, n.db, itemId, Feita)
    case (Cobranca, '2') =>
      exists dueAt ::
        && ProposedFor(LastTen(d.patterns), settings.fallbackHour, settings.fallbackMinute, d.now, dueAt)
        && PostponedTo(d.db, n.db, itemId, dueAt)
    case (Revisao, '1') => n.db == d.db
    case (Revisao, '2') => PostponedTo(d.db, n.db, itemId, d.now + 86_400_000)
    case (Higiene, '1') => StatusOnly(d.db, n.db, itemId, Arquivada)
    case (Higiene, '3') => exists dueAt :: MonthLater(d.now, dueAt) && PostponedTo(d.db, n.db, itemId, dueAt)
    case _ => DroppedItem(n.db, itemId)
  }

  lemma PostponeOutcome(db: Db, itemId: nat, dueAt: int, env: Env)
    requires StoreInv(db) && itemId < |db.items| && CanTransition(db.items[itemId].status, Adiada)
    ensures PostponedTo(db, Apply(db, Snooze(itemId, Some(dueAt)), env), itemId, dueAt)
  {
    hide StoreInv, AfterReschedule;
    var moved := SetSnoozed(db, itemId, dueAt);
    var next := AfterReschedule(moved, itemId, dueAt, env);
    ChainsLeaveItems(moved, itemId, dueAt, env);
    RescheduledKeeps(db, itemId, dueAt, env);
    InvParts(next);
  }

  lemma DropOutcome(db: Db, itemId: nat, env: Env)
    requires StoreInv(db) && itemId < |db.items| && CanTransition(db.items[itemId].status, Dropada)
    ensures DroppedItem(Apply(db, Drop(itemId), env), itemId)
  {
    hide StoreInv, AfterDrop;
    SetStatusKeeps(db, itemId, Dropada);
    DroppedKeeps(SetStatus(db, itemId, Dropada), itemId);
    ChainsLeaveItems(SetStatus(db, itemId, Dropada), itemId, 0, env);
  }

  lemma NextMonthIsMonthLater(now: int)
    ensures MonthLater(now, ZonedTimeToUtc(AddZonedMonths(ToZonedParts(now), 1)))
  {
    hide ToZonedParts, ZonedTimeToUtc, AddZonedMonths, MonthLater;
    MonthlyLands(now);
  }


  /**
   * Over every run, unless a crash inside a task command fell at a harmful
   * point: an answer to a menu whose item was closed meanwhile changes nothing in
   * the task store; otherwise the option does what its label says, an appointment
   * follows its item, and a rescheduled charge moves to the habitual window.
   */
  lemma AnswerOutcome(
      now: int, events: seq<DeskEvent>, c: MenuCommand, text: string, settings: AnswerSettings)
    requires HarmlessTears(Init(now), events)
    requires IsDigit(text) && Matches(c, text, Run(Init(now), events))
    ensures var d := Run(Init(now), events);
      var itemId := d.menus[NewestMenu(d.menus).value].itemId;
      if StillOpen(c.origin, d.db.items, itemId) then OptionTaken(c, d, Handle(c, d, settings), itemId, settings)
      else Handle(c, d, settings).db == d.db
  {
    hide Run, Handle, OptionTaken, NewestMenu, HarmlessTears, SamplesValid;
    assert SamplesValid(Init(now)) by { NoSamples(now); }
    RunSamples(Init(now), events);
    InitStore(now);
    RunStore(Init(now), events);
    var d := Run(Init(now), events);
    OptionHolds(c, d, d.menus[NewestMenu(d.menus).value].itemId, settings);
  }

  lemma NoSamples(now: int)
    ensures SamplesValid(Init(now))
  {
  }

  lemma InitStore(now: int)
    ensures StoreInv(Init(now).db)
  {
  }

  lemma OptionHolds(c: MenuCommand, d: Desk, itemId: nat, settings: AnswerSettings)
    requires SamplesValid(d) && StoreInv(d.db) && IsDigit([c.digit]) && PendingItem(d, c.origin) == Some(itemId)
    ensures if StillOpen(c.origin, d.db.items, itemId) then OptionTaken(c, d, Handle(c, d, settings), itemId, settings)
            else Handle(c, d, settings).db == d.db
  {
    hide StoreInv, Apply, PostponedTo, DroppedItem, PendingItem, RescheduleProposal, ProposedFor, MonthLater,
         ZonedTimeToUtc, AddZonedMonths, ToZonedParts, RecentWindows, ZonedWeekday, NewestMenu, NewestCharge;
    var env := settings.env.(now := d.now);
    if StillOpen(c.origin, d.db.items, itemId) {
      var proposal :=
        RescheduleProposal(RecentWindows(d.patterns, 10), settings.fallbackHour, settings.fallbackMinute, d.now);
      RecentAreRecorded(d.patterns, 10);
      LastTenAreRecent(d.patterns);
      ProposalFollowsHabit(RecentWindows(d.patterns, 10), settings.fallbackHour, settings.fallbackMinute, d.now);
      NextMonthIsMonthLater(d.now);
      PostponeOutcome(d.db, itemId, proposal, env);
      PostponeOutcome(d.db, itemId, d.now + MS_PER_DAY, env);
      PostponeOutcome(d.db, itemId, ZonedTimeToUtc(AddZonedMonths(ToZonedParts(d.now), 1)), env);
      DropOutcome(d.db, itemId, env);
      PlainOutcome(d.db, itemId, env);
    }
  }

  lemma PlainOutcome(db: Db, itemId: nat, env: Env)
    requires itemId < |db.items| && !Closed(db.items[itemId])
    ensures Apply(db, Complete(itemId), env) == SetStatus(db, itemId, Feita)
    ensures Apply(db, Archive(itemId), env) == SetStatus(db, itemId, Arquivada)
  {
  }

  lemma {:induction false} RecentAreRecorded(history: seq<ResponseSample>, limit: nat)
    ensures forall s <- RecentWindows(history, limit) :: s in history
  {
    if history != [] && limit > 0 {
      RecentAreRecorded(history[..|history| - 1], limit - 1);
    }
  }

  lemma IssueKeepsCount(c: MenuCommand, d: Desk, itemId: nat, settings: AnswerSettings)
    ensures |Issue(d, Effect(c, d, itemId, settings), settings).db.items| == |d.db.items|
  {
    hide RescheduleProposal, RecentWindows, ZonedTimeToUtc, AddZonedMonths, ToZonedParts, AfterDrop, AfterReschedule;
    var effect, env := Effect(c, d, itemId, settings), settings.env.(now := d.now);
    if effect.Some? && itemId < |d.db.items| {
      ChainsLeaveItems(SetStatus(d.db, itemId, Dropada), itemId, 0, env);
      if effect.value.Snooze? {
        var dueAt := effect.value.dueAt.value;
        ChainsLeaveItems(SetSnoozed(d.db, itemId, dueAt), itemId, dueAt, env);
      }
    }
  }

  // ---- Every crash point of a nudge and of a response ---------------------

  /**
   * The three inserts of one nudge are separate statements. Dying between the
   * charge and its menu leaves the stacks misaligned; dying before the charge
   * or after the menu does not.
   */
  lemma TornNudge(d: Desk, itemId: nat, inserted: nat)
    requires Aligned(d) && inserted <= 3
    ensures var full := SendCharge(d, itemId);
      var torn := d.(charges := if inserted >= 1 then full.charges else d.charges,
                     outbox := if inserted >= 2 then full.outbox else d.outbox,
                     menus := if inserted >= 3 then full.menus else d.menus);
      Aligned(torn) <==> inserted == 0 || inserted == 3
  {
    hide ZonedDayKey;
    var full := SendCharge(d, itemId);
    assert full.menus[..|d.menus|] == d.menus && full.charges[..|d.charges|] == d.charges;
  }

  /**
   * So are the three updates of a response to a charge: dying once the menu is
   * resolved and before the charge is answered leaves the stacks misaligned, and
   * no other crash point does.
   */
  lemma TornResponse(d: Desk, updated: nat)
    requires Aligned(d) && updated <= 3
    requires NewestMenu(d.menus).Some? && d.menus[NewestMenu(d.menus).value].origin == Cobranca
    ensures var full := RecordResponse(d);
      var torn := d.(menus := if updated >= 1 then full.menus else d.menus,
                     charges := if updated >= 2 then full.charges else d.charges,
                     patterns := if updated >= 3 then full.patterns else d.patterns);
      Aligned(torn) <==> updated != 1
  {
    hide NewestMenu, RecordResponse, MenuItems, ChargeItems;
    ResponseAhead(d, 0);
    ResponseMenus(d);
  }
}
