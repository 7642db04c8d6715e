/** What every run of nudges, menus and answers keeps. */
module MenuSafety {
  import opened Common
  import opened Counting
  import opened Calendar
  import opened ZonedTime
  import opened ResponsePattern
  import opened TaskTables
  import opened ChainInvariants
  import opened OutboxTable
  import opened Priorities
  import opened MenuTables

  // ---- Alignment of the two stacks ---------------------------------------

  /** Items of the unresolved charge menus, in id order. */
  function MenuItems(menus: seq<Menu>): seq<nat> {
    if menus == [] then []
    else
      var last := menus[|menus| - 1];
      MenuItems(menus[..|menus| - 1]) + if last.origin == Cobranca && last.resolvedAt.None? then [last.itemId] else []
  }

  /** Items of the charges without a response, in id order. */
  function ChargeItems(charges: seq<Charge>): seq<nat> {
    if charges == [] then []
    else
      var last := charges[|charges| - 1];
      ChargeItems(charges[..|charges| - 1]) + if last.respondedAt.None? then [last.itemId] else []
  }

  predicate Aligned(d: Desk) {
    MenuItems(d.menus) == ChargeItems(d.charges)
  }

  lemma {:induction false} PopMenu(menus: seq<Menu>, id: nat, at: int)
    requires NewestMenu(menus) == Some(id)
    ensures MenuItems(menus) == MenuItems(menus[id := menus[id].(resolvedAt := Some(at))])
                             + if menus[id].origin == Cobranca then [menus[id].itemId] else []
  {
    var n := |menus| - 1;
    var popped := menus[id := menus[id].(resolvedAt := Some(at))];
    if id < n {
      assert popped[..n] == menus[..n][id := menus[id].(resolvedAt := Some(at))];
      PopMenu(menus[..n], id, at);
    } else {
      assert popped[..n] == menus[..n];
    }
  }

  lemma {:induction false} PopCharge(charges: seq<Charge>, id: nat, at: int)
    requires NewestCharge(charges) == Some(id)
    ensures ChargeItems(charges)
         == ChargeItems(charges[id := charges[id].(respondedAt := Some(at))]) + [charges[id].itemId]
  {
    var n := |charges| - 1;
    var popped := charges[id := charges[id].(respondedAt := Some(at))];
    if id < n {
      assert popped[..n] == charges[..n][id := charges[id].(respondedAt := Some(at))];
      PopCharge(charges[..n], id, at);
    } else {
      assert popped[..n] == charges[..n];
    }
  }

  lemma {:induction false} NoChargeNoItems(charges: seq<Charge>)
    ensures NewestCharge(charges).None? <==> ChargeItems(charges) == []
  {
    if charges != [] && charges[|charges| - 1].respondedAt.Some? {
      NoChargeNoItems(charges[..|charges| - 1]);
    }
  }

  /**
   * A response to the newest menu, when it is a charge, pops the charge of the same
   * item and keeps the stacks aligned.
   */
  lemma ResponsePopsSameItem(d: Desk)
    requires Aligned(d) && NewestMenu(d.menus).Some? && d.menus[NewestMenu(d.menus).value].origin == Cobranca
    ensures NewestCharge(d.charges).Some?
    ensures d.charges[NewestCharge(d.charges).value].itemId == d.menus[NewestMenu(d.menus).value].itemId
    ensures Aligned(RecordResponse(d))
  {
    hide MenuItems, ChargeItems, NewestMenu, NewestCharge, ZonedWeekday, ToZonedParts;
    var m := NewestMenu(d.menus).value;
    PopMenu(d.menus, m, d.now);
    NoChargeNoItems(d.charges);
    var c := NewestCharge(d.charges).value;
    PopCharge(d.charges, c, d.now);
    var items := MenuItems(d.menus);
    assert items[|items| - 1] == d.menus[m].itemId == d.charges[c].itemId;
    assert items[..|items| - 1] == MenuItems(RecordResponse(d).menus) == ChargeItems(RecordResponse(d).charges);
  }

  // ---- One check ----------------------------------------------------------

  function ChargesFor(items: seq<Ranked>, key: Date): seq<Charge> {
    seq(|items|, i requires 0 <= i < |items| => Charge(items[i].id, key, None))
  }

  function MenusFor(items: seq<Ranked>): seq<Menu> {
    seq(|items|, i requires 0 <= i < |items| => Menu(Cobranca, items[i].id, None))
  }

  function RowsFor(n: nat, now: int): seq<Row> {
    seq(n, i => NewRow(true, false, now))
  }

  /** Charges the check has room for under the global cap. */
  function Room(d: Desk, settings: NudgeSettings): nat {
    var committed := CountProactiveCommittedSince(d.outbox, StartOfToday(d.now));
    if committed < settings.dailyProactiveCap then settings.dailyProactiveCap - committed else 0
  }

  lemma SendChargeCommits(d: Desk, itemId: nat)
    ensures CountProactiveCommittedSince(SendCharge(d, itemId).outbox, StartOfToday(d.now))
         == CountProactiveCommittedSince(d.outbox, StartOfToday(d.now)) + 1
  {
    hide ZonedDayKey, ZonedTimeToUtc, StartOfZonedDay;
    StartOfDayBounds(d.now);
    CountAppend(d.outbox, NewRow(true, false, d.now), r => CommittedSince(r, StartOfToday(d.now)));
  }

  lemma NothingSent(d: Desk, key: Date)
    ensures d.charges + ChargesFor([], key) == d.charges && d.menus + MenusFor([]) == d.menus
    ensures d.outbox + RowsFor(0, d.now) == d.outbox
  {
  }

  lemma FirstSent(d: Desk, x: Ranked, rest: seq<Ranked>, key: Date)
    ensures d.charges + [Charge(x.id, key, None)] + ChargesFor(rest, key) == d.charges + ChargesFor([x] + rest, key)
    ensures d.menus + [Menu(Cobranca, x.id, None)] + MenusFor(rest) == d.menus + MenusFor([x] + rest)
    ensures d.outbox + [NewRow(true, false, d.now)] + RowsFor(|rest|, d.now) == d.outbox + RowsFor(|rest| + 1, d.now)
  {
  }

  /**
   * A check charges as many eligible items, in order, as the global cap still
   * has room for: each gets one charge dated today, one proactive message and
   * one menu, and nothing else changes.
   */
  lemma {:induction false} SendChargesExactly(d: Desk, eligible: seq<Ranked>, settings: NudgeSettings)
    ensures var k := if |eligible| <= Room(d, settings) then |eligible| else Room(d, settings);
      SendCharges(d, eligible, settings)
      == d.(charges := d.charges + ChargesFor(eligible[..k], ZonedDayKey(d.now)),
            menus := d.menus + MenusFor(eligible[..k]),
            outbox := d.outbox + RowsFor(k, d.now))
    decreases |eligible|
  {
    hide ZonedDayKey, CountProactiveCommittedSince, StartOfToday, NewRow, ChargesFor, MenusFor, RowsFor;
    var key := ZonedDayKey(d.now);
    NothingSent(d, key);
    if eligible != [] && Room(d, settings) > 0 {
      var n := SendCharge(d, eligible[0].id);
      SendChargeCommits(d, eligible[0].id);
      SendChargesExactly(n, eligible[1..], settings);
      var k := if |eligible| <= Room(d, settings) then |eligible| else Room(d, settings);
      assert eligible[..k] == [eligible[0]] + eligible[1..][..k - 1];
      FirstSent(d, eligible[0], eligible[1..][..k - 1], key);
    }
  }

  // ---- Which items a check charges ----------------------------------------

  /** Charges already made on the local day of `now`. */
  function ChargedToday(d: Desk): set<nat> {
    set k: nat | k < |d.charges| && d.charges[k].chargedOn == ZonedDayKey(d.now)
  }

  /** A listed item that is overdue or among the three top priorities and not charged today; none in return mode. */
  predicate IsChargeable(d: Desk, settings: NudgeSettings, active: seq<Ranked>, i: nat)
    requires i < |active|
  {
    && !settings.returnModeSuppressed
    && (forall k <- ChargedToday(d) :: d.charges[k].itemId != active[i].id)
    && ((active[i].dueAt.Some? && active[i].dueAt.value < d.now) || active[i] in SelectTopPriorities(active, 3))
  }

  function ChargeableBefore(d: Desk, settings: NudgeSettings, active: seq<Ranked>, i: nat): set<nat> {
    set k: nat | k < i && k < |active| && IsChargeable(d, settings, active, k)
  }

  /** What both caps leave room for: charges of the day, and proactive messages of the day. */
  function Budget(d: Desk, settings: NudgeSettings): nat {
    var charges := settings.dailyChargeCap - |ChargedToday(d)|;
    var messages := settings.dailyProactiveCap - |CommittedIds(d.outbox, d.now)|;
    var least := if charges <= messages then charges else messages;
    if least > 0 then least else 0
  }

  /**
   * The chargeable items are charged in the order listed, as many as the budget
   * allows, each with one charge for the day, one proactive message and one menu;
   * nothing else changes.
   */
  predicate ChargesInOrder(d: Desk, settings: NudgeSettings, active: seq<Ranked>, n: Desk) {
    var all := |ChargeableBefore(d, settings, active, |active|)|;
    var sent := if all <= Budget(d, settings) then all else Budget(d, settings);
    && |n.charges| == |d.charges| + sent && d.charges <= n.charges
    && |n.menus| == |d.menus| + sent && d.menus <= n.menus
    && |n.outbox| == |d.outbox| + sent && d.outbox <= n.outbox
    && n.db == d.db && n.patterns == d.patterns && n.now == d.now
    && (forall k :: |d.outbox| <= k < |n.outbox| ==> n.outbox[k] == Row(true, false, Pending, 0, None, None, d.now))
    && forall i :: 0 <= i < |active| && IsChargeable(d, settings, active, i) ==>
         var k := |ChargeableBefore(d, settings, active, i)|;
         k < sent ==> && n.charges[|d.charges| + k] == Charge(active[i].id, ZonedDayKey(d.now), None)
                      && n.menus[|d.menus| + k] == Menu(Cobranca, active[i].id, None)
  }

  function ContextOf(d: Desk, settings: NudgeSettings, active: seq<Ranked>): NudgeContext {
    var key, top := ZonedDayKey(d.now), SelectTopPriorities(active, 3);
    NudgeContext(d.now, CountChargedOn(d.charges, key), settings.dailyChargeCap, settings.returnModeSuppressed,
                 ItemIdsChargedOn(d.charges, key), set x | x in top :: x.id)
  }

  lemma ChargedIsSize(d: Desk)
    ensures CountChargedOn(d.charges, ZonedDayKey(d.now)) == |ChargedToday(d)|
  {
    hide ZonedDayKey;
    CountIsSize(d.charges, (c: Charge) => c.chargedOn == ZonedDayKey(d.now), ChargedToday(d));
  }

  lemma ChargeableIff(d: Desk, settings: NudgeSettings, active: seq<Ranked>, i: nat)
    requires DistinctIds(active) && i < |active|
    ensures IsChargeable(d, settings, active, i) <==> MayBeCharged(active[i], ContextOf(d, settings, active))
  {
    hide ZonedDayKey, CountChargedOn, SelectTopPriorities, Sorted;
    var top, key := SelectTopPriorities(active, 3), ZonedDayKey(d.now);
    SelectionIsTop(active, 3);
    forall x <- top ensures x.id == active[i].id ==> x == active[i] {
      assert x in active;
    }
    forall k <- ChargedToday(d) ensures d.charges[k].itemId in ItemIdsChargedOn(d.charges, key) {
    }
  }

  lemma SameChargeable(d: Desk, settings: NudgeSettings, active: seq<Ranked>, n: nat)
    requires DistinctIds(active)
    ensures ChargeableBefore(d, settings, active, n) == ChargeableBelow(active, ContextOf(d, settings, active), n)
  {
    hide IsChargeable, MayBeCharged, ContextOf;
    forall k: nat | k < n && k < |active|
      ensures IsChargeable(d, settings, active, k) <==> MayBeCharged(active[k], ContextOf(d, settings, active))
    {
      ChargeableIff(d, settings, active, k);
    }
  }

  lemma CheckChargesInOrder(d: Desk, settings: NudgeSettings, active: seq<Ranked>)
    requires IsActiveList(d.db.items, active)
    ensures ChargesInOrder(d, settings, active, CheckAndSendDue(d, settings, active))
  {
    hide ZonedDayKey, CountProactiveCommittedSince, StartOfToday, CommittedIds, ChargedToday, IsChargeable,
         ChargeableBefore, SelectNudgeEligible, SelectTopPriorities, MayBeCharged, ChargeableBelow, SendCharges,
         CountChargedOn, ItemIdsChargedOn;
    var eligible, ctx := Eligible(d, settings, active), ContextOf(d, settings, active);
    SendChargesExactly(d, eligible, settings);
    SelectionTakesFirst(active, ctx);
    CommittedIsSize(d.outbox, d.now);
    ChargedIsSize(d);
    SameChargeable(d, settings, active, |active|);
    forall i | 0 <= i < |active|
      ensures ChargeableBefore(d, settings, active, i) == ChargeableBelow(active, ctx, i)
      ensures IsChargeable(d, settings, active, i) <==> MayBeCharged(active[i], ctx)
    {
      SameChargeable(d, settings, active, i);
      ChargeableIff(d, settings, active, i);
    }
  }

  // ---- Caps ---------------------------------------------------------------

  /** A day has at most `cap` charges, and none twice for an item. */
  ghost predicate ChargesCapped(charges: seq<Charge>, cap: int) {
    && (forall key: Date :: CountChargedOn(charges, key) > 0 ==> CountChargedOn(charges, key) <= cap)
    && (forall i, j :: 0 <= i < j < |charges| && charges[i].chargedOn == charges[j].chargedOn
          ==> charges[i].itemId != charges[j].itemId)
  }

  // ---- The list of active items ------------------------------------------

  /** Such a list exists: sorted by date with rows of the same date in id order. */
  function ActiveBelow(items: seq<Item>, n: nat): (active: seq<Ranked>)
    requires n <= |items|
    ensures forall x <- active :: x.id < n
  {
    if n == 0 then []
    else
      var before := ActiveBelow(items, n - 1);
      if Listed(items[n - 1]) then Enlist(before, RankedRow(items, n - 1)) else before
  }

  /** After every row due no later. */
  function Enlist(s: seq<Ranked>, x: Ranked): (r: seq<Ranked>)
    ensures forall y :: y in r <==> y == x || y in s
  {
    if s == [] || DueBefore(x.dueAt, s[0].dueAt) then [x] + s else [s[0]] + Enlist(s[1..], x)
  }

  predicate ByDate(s: seq<Ranked>) {
    forall i, j :: 0 <= i < j < |s| ==> !DueBefore(s[j].dueAt, s[i].dueAt)
  }

  lemma {:induction false} EnlistKeeps(s: seq<Ranked>, x: Ranked)
    requires ByDate(s) && DistinctIds(s) && forall y <- s :: y.id != x.id
    ensures ByDate(Enlist(s, x)) && DistinctIds(Enlist(s, x))
  {
    if s == [] || DueBefore(x.dueAt, s[0].dueAt) {
      forall k | 0 <= k < |s| ensures !DueBefore(s[k].dueAt, x.dueAt) {
        assert k > 0 ==> !DueBefore(s[k].dueAt, s[0].dueAt);
      }
    } else {
      EnlistKeeps(s[1..], x);
      var rest := Enlist(s[1..], x);
      forall k | 0 <= k < |rest| ensures !DueBefore(rest[k].dueAt, s[0].dueAt) && rest[k].id != s[0].id {
        assert rest[k] in rest;
        assert rest[k] == x || rest[k] in s[1..];
      }
    }
  }

  lemma {:induction false} ActiveKeeps(items: seq<Item>, n: nat)
    requires n <= |items|
    ensures ByDate(ActiveBelow(items, n)) && DistinctIds(ActiveBelow(items, n))
    ensures forall x :: x in ActiveBelow(items, n) <==> x.id < n && Listed(items[x.id]) && x == RankedRow(items, x.id)
  {
    hide Listed, DueBefore, Enlist, ByDate, DistinctIds;
    if n == 0 {
      EmptyIsKept();
    } else {
      ActiveKeeps(items, n - 1);
      if Listed(items[n - 1]) {
        EnlistKeeps(ActiveBelow(items, n - 1), RankedRow(items, n - 1));
      }
    }
  }

  lemma EmptyIsKept()
    ensures ByDate([]) && DistinctIds([])
  {
  }

  /** The active items can be listed as the query promises. */
  lemma ActiveItemsListed(items: seq<Item>)
    ensures IsActiveList(items, ActiveBelow(items, |items|))
  {
    hide Listed, DueBefore;
    ActiveKeeps(items, |items|);
  }

  /**
   * A listing holds the items that are active, in progress or postponed, each once
   * with its own priority and date, earlier dates first and undated items last.
   */
  lemma ListingContents(items: seq<Item>, active: seq<Ranked>)
    requires IsActiveList(items, active)
    ensures forall x: Ranked :: x in active <==>
      && x.id < |items| && x.priority == items[x.id].priority && x.dueAt == items[x.id].dueAt
      && (items[x.id].status == Ativa || items[x.id].status == EmAndamento || items[x.id].status == Adiada)
    ensures forall i, j :: 0 <= i < j < |active| ==>
      && active[i].id != active[j].id
      && (active[j].dueAt.Some? ==> active[i].dueAt.Some? && active[i].dueAt.value <= active[j].dueAt.value)
  {
    forall x: Ranked | x.id < |items| && Listed(items[x.id]) && x == RankedRow(items, x.id) ensures x in active {
    }
  }

  /** Whatever order the query leaves open, the top priorities are the same. */
  lemma TopsIgnoreListing(items: seq<Item>, a: seq<Ranked>, b: seq<Ranked>, maxCount: nat)
    requires IsActiveList(items, a) && IsActiveList(items, b)
    ensures SelectTopPriorities(a, maxCount) == SelectTopPriorities(b, maxCount)
  {
    hide Listed, DueBefore, SelectTopPriorities;
    forall x ensures x in a <==> x in b {
    }
    SameBag(a, b);
    SelectionIgnoresOrder(a, b, maxCount);
  }

  lemma {:induction false} SameBag(a: seq<Ranked>, b: seq<Ranked>)
    requires DistinctIds(a) && DistinctIds(b) && forall x :: x in a <==> x in b
    ensures multiset(a) == multiset(b)
  {
    forall x ensures multiset(a)[x] == multiset(b)[x] {
      OnceAtMost(a, x);
      OnceAtMost(b, x);
    }
  }

  lemma {:induction false} OnceAtMost(s: seq<Ranked>, x: Ranked)
    requires DistinctIds(s)
    ensures multiset(s)[x] == if x in s then 1 else 0
  {
    if s != [] {
      assert s == [s[0]] + s[1..];
      OnceAtMost(s[1..], x);
    }
  }

  // ---- What a check may charge -------------------------------------------

  lemma EligibleFits(d: Desk, settings: NudgeSettings, active: seq<Ranked>)
    requires IsActiveList(d.db.items, active)
    ensures var chosen := Eligible(d, settings, active);
      && (chosen != [] ==> CountChargedOn(d.charges, ZonedDayKey(d.now)) + |chosen| <= settings.dailyChargeCap)
      && DistinctIds(chosen)
      && forall x <- chosen :: x.id !in ItemIdsChargedOn(d.charges, ZonedDayKey(d.now))
  {
    hide ZonedDayKey, CountChargedOn, ItemIdsChargedOn, SelectTopPriorities, SelectNudgeEligible;
    var key, top := ZonedDayKey(d.now), SelectTopPriorities(active, 3);
    SelectionFits(active, NudgeContext(d.now, CountChargedOn(d.charges, key), settings.dailyChargeCap,
      settings.returnModeSuppressed, ItemIdsChargedOn(d.charges, key), set x | x in top :: x.id));
  }

  lemma {:induction false} CountAfterCharging(charges: seq<Charge>, items: seq<Ranked>, today: Date, key: Date)
    ensures CountChargedOn(charges + ChargesFor(items, today), key)
         == CountChargedOn(charges, key) + if key == today then |items| else 0
  {
    if items == [] {
      assert charges + ChargesFor(items, today) == charges;
    } else {
      var n := |items| - 1;
      CountAfterCharging(charges, items[..n], today, key);
      var before, last := charges + ChargesFor(items[..n], today), Charge(items[n].id, today, None);
      assert charges + ChargesFor(items, today) == before + [last];
      CountAppend(before, last, (c: Charge) => c.chargedOn == key);
    }
  }

  /** Charging any number of the eligible items today keeps the cap. */
  lemma ChargingCapped(d: Desk, settings: NudgeSettings, active: seq<Ranked>, m: nat)
    requires ChargesCapped(d.charges, settings.dailyChargeCap) && IsActiveList(d.db.items, active)
    requires m <= |Eligible(d, settings, active)|
    ensures ChargesCapped(d.charges + ChargesFor(Eligible(d, settings, active)[..m], ZonedDayKey(d.now)),
                          settings.dailyChargeCap)
  {
    hide ZonedDayKey, CountChargedOn, Eligible, IsActiveList;
    var eligible, key := Eligible(d, settings, active), ZonedDayKey(d.now);
    EligibleFits(d, settings, active);
    var sent := eligible[..m];
    var charges := d.charges + ChargesFor(sent, key);
    forall other: Date
      ensures CountChargedOn(charges, other) > 0 ==> CountChargedOn(charges, other) <= settings.dailyChargeCap
    {
      CountAfterCharging(d.charges, sent, key, other);
    }
    forall i, j | 0 <= i < j < |charges| && charges[i].chargedOn == charges[j].chargedOn
      ensures charges[i].itemId != charges[j].itemId
    {
      if i < |d.charges| <= j {
        assert eligible[j - |d.charges|] in eligible;
        assert charges[i].itemId in ItemIdsChargedOn(d.charges, key);
      }
    }
  }

  lemma CheckCapped(d: Desk, settings: NudgeSettings, active: seq<Ranked>)
    requires ChargesCapped(d.charges, settings.dailyChargeCap)
    ensures ChargesCapped(CheckAndSendDue(d, settings, active).charges, settings.dailyChargeCap)
  {
    hide ZonedDayKey, ChargesCapped, Eligible, CountProactiveCommittedSince, StartOfToday, SendCharges, IsActiveList;
    if IsActiveList(d.db.items, active) {
      var eligible := Eligible(d, settings, active);
      SendChargesExactly(d, eligible, settings);
      ChargingCapped(d, settings, active, if |eligible| <= Room(d, settings) then |eligible| else Room(d, settings));
    }
  }

  /** What a torn check charged is the first of its eligible items. */
  lemma TornCheckCharges(d: Desk, eligible: seq<Ranked>, settings: NudgeSettings, sent: nat, messageToo: bool)
    returns (m: nat)
    ensures m <= |eligible|
    ensures TornCheck(d, eligible, settings, sent, messageToo).charges
         == d.charges + ChargesFor(eligible[..m], ZonedDayKey(d.now))
    ensures var n := TornCheck(d, eligible, settings, sent, messageToo);
      n.db == d.db && n.patterns == d.patterns && n.now == d.now
  {
    hide ZonedDayKey, CountProactiveCommittedSince, StartOfToday, SendCharges, NewRow, RowsFor;
    SendChargesExactly(d, eligible, settings);
    if sent >= |eligible| {
      m := if |eligible| <= Room(d, settings) then |eligible| else Room(d, settings);
    } else {
      SendChargesExactly(d, eligible[..sent], settings);
      var before := SendCharges(d, eligible[..sent], settings);
      var k := if sent <= Room(d, settings) then sent else Room(d, settings);
      assert eligible[..sent][..k] == eligible[..k];
      m := k;
      if HasRoom(before, settings) {
        RoomIsUsed(d, eligible[..sent], settings);
        m := sent + 1;
        assert eligible[..m] == eligible[..sent] + [eligible[sent]];
        assert ChargesFor(eligible[..m], ZonedDayKey(d.now))
            == ChargesFor(eligible[..sent], ZonedDayKey(d.now)) + [Charge(eligible[sent].id, ZonedDayKey(d.now), None)];
      }
    }
  }

  /** Room left after some nudges means none of them was held back. */
  lemma {:induction false} RoomIsUsed(d: Desk, eligible: seq<Ranked>, settings: NudgeSettings)
    requires HasRoom(SendCharges(d, eligible, settings), settings)
    ensures |eligible| <= Room(d, settings)
    decreases |eligible|
  {
    hide ZonedDayKey, CountProactiveCommittedSince, StartOfToday, NewRow;
    if eligible != [] && HasRoom(d, settings) {
      SendChargeCommits(d, eligible[0].id);
      RoomIsUsed(SendCharge(d, eligible[0].id), eligible[1..], settings);
    }
  }

  lemma TornCheckCapped(d: Desk, settings: NudgeSettings, active: seq<Ranked>, sent: nat, messageToo: bool)
    requires ChargesCapped(d.charges, settings.dailyChargeCap) && IsActiveList(d.db.items, active)
    ensures ChargesCapped(TornCheck(d, Eligible(d, settings, active), settings, sent, messageToo).charges,
                          settings.dailyChargeCap)
  {
    hide ZonedDayKey, ChargesCapped, Eligible, TornCheck, IsActiveList;
    var m := TornCheckCharges(d, Eligible(d, settings, active), settings, sent, messageToo);
    ChargingCapped(d, settings, active, m);
  }

  lemma {:induction false} CountIgnoresResponse(charges: seq<Charge>, id: nat, at: int, key: Date)
    requires id < |charges|
    ensures CountChargedOn(charges[id := charges[id].(respondedAt := Some(at))], key) == CountChargedOn(charges, key)
  {
    CountUpdate(charges, id, charges[id].(respondedAt := Some(at)), (c: Charge) => c.chargedOn == key);
  }

  lemma ResponseCapped(d: Desk, cap: int)
    requires ChargesCapped(d.charges, cap)
    ensures ChargesCapped(RecordResponse(d).charges, cap)
  {
    hide CountChargedOn, NewestMenu, NewestCharge, ZonedWeekday, ToZonedParts;
    match NewestCharge(d.charges)
    case None =>
    case Some(id) =>
      forall key: Date ensures CountChargedOn(RecordResponse(d).charges, key) == CountChargedOn(d.charges, key) {
        CountIgnoresResponse(d.charges, id, d.now, key);
      }
  }

  // ---- Answers ------------------------------------------------------------

  /** The item command an answer stands for is never refused. */
  lemma EffectIsAccepted(c: MenuCommand, d: Desk, itemId: nat, settings: AnswerSettings)
    ensures var effect := Effect(c, d, itemId, settings);
      effect.Some? ==> Try(d.db, effect.value, settings.env.(now := d.now)).Success?
  {
    hide AfterDrop, AfterReschedule, RescheduleProposal, RecentWindows, ZonedTimeToUtc, AddZonedMonths, ToZonedParts;
  }

  /** It names that item, and only items' statuses and dates of that item can change. */
  lemma EffectTouchesOneItem(c: MenuCommand, d: Desk, itemId: nat, settings: AnswerSettings, j: nat)
    requires j < |d.db.items| && j != itemId
    ensures var n := Issue(d, Effect(c, d, itemId, settings), settings);
      |n.db.items| == |d.db.items| && n.db.items[j] == d.db.items[j]
  {
    hide RescheduleProposal, RecentWindows, ZonedTimeToUtc, AddZonedMonths, ToZonedParts, AfterDrop, AfterReschedule;
    var effect, env := Effect(c, d, itemId, settings), settings.env.(now := d.now);
    if effect.Some? && itemId < |d.db.items| {
      ChainsLeaveItems(SetStatus(d.db, itemId, Dropada), itemId, 0, env);
      if effect.value.Snooze? {
        var dueAt := effect.value.dueAt.value;
        ChainsLeaveItems(SetSnoozed(d.db, itemId, dueAt), itemId, dueAt, env);
      }
    }
  }

  lemma IssueKeepsTables(d: Desk, effect: Option<Command>, settings: AnswerSettings)
    ensures var n := Issue(d, effect, settings);
      n.menus == d.menus && n.charges == d.charges && n.now == d.now && n.patterns == d.patterns && n.outbox == d.outbox
  {
    hide Apply;
  }

  lemma HandleCapped(c: MenuCommand, d: Desk, settings: AnswerSettings, cap: int)
    requires ChargesCapped(d.charges, cap)
    ensures ChargesCapped(Handle(c, d, settings).charges, cap)
  {
    hide ChargesCapped, Issue, Effect, RecordResponse, NewestMenu;
    match PendingItem(d, c.origin)
    case None =>
    case Some(itemId) =>
      IssueKeepsTables(d, Effect(c, d, itemId, settings), settings);
      ResponseCapped(Issue(d, Effect(c, d, itemId, settings), settings), cap);
  }

  lemma HandleStore(c: MenuCommand, d: Desk, settings: AnswerSettings)
    requires StoreInv(d.db)
    ensures StoreInv(Handle(c, d, settings).db)
  {
    hide StoreInv, Apply, Effect, NewestMenu, NewestCharge, ZonedWeekday, ToZonedParts;
    match PendingItem(d, c.origin)
    case None =>
    case Some(itemId) =>
      match Effect(c, d, itemId, settings)
      case None =>
      case Some(command) => CommandKeeps(d.db, command, settings.env.(now := d.now));
  }

  lemma HandlePatterns(c: MenuCommand, d: Desk, settings: AnswerSettings)
    requires forall s <- d.patterns :: ValidSample(s)
    ensures forall s <- Handle(c, d, settings).patterns :: ValidSample(s)
  {
    hide Issue, Effect, NewestMenu, NewestCharge, ZonedWeekday, ToZonedParts;
    NowIsValidSample(d.now);
    match PendingItem(d, c.origin)
    case None =>
    case Some(itemId) => IssueKeepsTables(d, Effect(c, d, itemId, settings), settings);
  }

  lemma NowIsValidSample(now: int)
    ensures ValidSample(ResponseSample(ZonedWeekday(now), ToZonedParts(now).hour))
  {
    hide ZonedWeekday, ToZonedParts;
    WeekdayOfLocalDay(now);
    InstantRoundTrip(now);
  }
}
