/** The promises of the outbox, over every run. */
module OutboxTheorems {
  import opened Common
  import opened Counting
  import opened ZonedTime
  import opened OutboxTable
  import opened OutboxMachine
  import opened OutboxSafety

  /**
   * If the pass in progress held an anchor ritual back on a local day, it sent no
   * ordinary proactive message that day.
   */
  lemma HeldAnchorStopsOrdinary(now: int, cap: nat, events: seq<Event>, held: int, sent: int)
    requires held in Run(Init(now, cap), events).heldAnchorAt && sent in Run(Init(now, cap), events).ordinarySentAt
    ensures LocalDay(held) != LocalDay(sent)
  {
    hide Kept, CapKept, ReachKept, Run, LocalDay;
    InitInv(now, cap);
    RunInv(Init(now, cap), events);
  }

  // ---- Events along a run -------------------------------------------------

  /** How many events of a run are hits in the state they come in. */
  function Hits(s: Sys, events: seq<Event>, hit: (Sys, Event) -> bool): nat {
    if events == [] then 0
    else
      var before := events[..|events| - 1];
      Hits(s, before, hit) + if hit(Run(s, before), events[|events| - 1]) then 1 else 0
  }

  lemma {:induction false} HitsBelow(s: Sys, events: seq<Event>, p: (Sys, Event) -> bool, q: (Sys, Event) -> bool)
    requires forall x, e :: p(x, e) ==> q(x, e)
    ensures Hits(s, events, p) <= Hits(s, events, q)
  {
    if events != [] {
      HitsBelow(s, events[..|events| - 1], p, q);
    }
  }

  /** The crash that cuts the settlement of row `i` short after that statement. */
  predicate Cuts(s: Sys, e: Event, i: nat, cut: Cut) {
    && InFlight(s) && s.inFlight.value.id == i
    && e.CrashInSettle? && e.cut == cut && GetsTo(s.inFlight.value, e.outcome, cut)
  }

  function CutsOf(i: nat, cut: Cut): (Sys, Event) -> bool {
    (s, e) => Cuts(s, e, i, cut)
  }

  /** In some settlement of row `i` the process died right after that statement. */
  predicate CutIn(s: Sys, events: seq<Event>, i: nat, cut: Cut) {
    Hits(s, events, CutsOf(i, cut)) > 0
  }

  predicate CutAt(s: Sys, i: nat, cut: Cut) {
    i < |s.trails| && s.trails[i].cut == Some(cut)
  }

  lemma CutStep(s: Sys, e: Event, i: nat, cut: Cut)
    requires Kept(s)
    ensures CutAt(Next(s, e), i, cut) <==> CutAt(s, i, cut) || Cuts(s, e, i, cut)
  {
    hide RowKept, SettledRow, CutRow, OverCap, FindPending, GetsTo;
    if e.Advance? && s.batch != [] {
      assert Queued(s.rows, s.now, s.batch[0]);
    }
  }

  lemma {:induction false} CutIff(now: int, cap: nat, events: seq<Event>, i: nat, cut: Cut)
    ensures CutAt(Run(Init(now, cap), events), i, cut) <==> CutIn(Init(now, cap), events, i, cut)
  {
    hide Next, CutAt, Cuts, Kept, Inv;
    var s := Init(now, cap);
    if events == [] {
      EmptyTable(now, cap, i, cut);
    } else {
      var before := events[..|events| - 1];
      CutIff(now, cap, before, i, cut);
      RunKept(now, cap, before);
      CutStep(Run(s, before), events[|events| - 1], i, cut);
    }
  }

  lemma EmptyTable(now: int, cap: nat, i: nat, cut: Cut)
    ensures Init(now, cap).trails == []
    ensures !CutAt(Init(now, cap), i, cut) && !DeliveredAt(Init(now, cap), i)
  {
  }

  lemma RunKept(now: int, cap: nat, events: seq<Event>)
    ensures Kept(Run(Init(now, cap), events))
  {
    hide Kept, CapKept, ReachKept, AnchorKept, Run, Init;
    InitInv(now, cap);
    RunInv(Init(now, cap), events);
  }

  // ---- Attempts -----------------------------------------------------------

  /** How long a row waits for its next attempt: two, four, eight and sixteen minutes. */
  const WAITS := [120_000, 240_000, 480_000, 960_000]

  lemma WaitsAreBackoff(k: nat)
    requires k < 4
    ensures WAITS[k] == NextRetryDelayMs(k + 1)
  {
    hide NextRetryDelayMs;
    BackoffDoubles(0);
    BackoffDoubles(1);
    BackoffDoubles(2);
    BackoffDoubles(3);
    BackoffDoubles(4);
  }

  /**
   * Every row is claimed at most five times, the k-th retry at least its
   * backoff after the claim before it. Five attempts mean that it has failed,
   * unless the process died right after counting one, which leaves the row
   * unfailed for good; a failed row had its one exhaustion alert, unless the
   * process died right after marking it.
   */
  lemma AttemptBudget(now: int, cap: nat, events: seq<Event>, i: nat)
    requires i < |Run(Init(now, cap), events).rows|
    ensures var init := Init(now, cap);
            var s := Run(init, events);
            && |s.trails| == |s.rows|
            && |s.trails[i].sentAt| <= |s.trails[i].claimedAt| <= 5
            && (forall k :: 0 <= k < |s.trails[i].claimedAt| - 1 ==>
                  s.trails[i].claimedAt[k] + WAITS[k] <= s.trails[i].claimedAt[k + 1])
            && (s.rows[i].status == Failed <==>
                  s.rows[i].attempts >= 5 && !CutIn(init, events, i, AfterCount))
            && (CutIn(init, events, i, AfterCount) ==> s.rows[i].attempts == |s.trails[i].claimedAt|)
            && s.trails[i].alerts
               == (if s.rows[i].status == Failed && !CutIn(init, events, i, AfterFail) then 1 else 0)
  {
    hide Inv, Run, NextRetryDelayMs, CutIn;
    var s := Run(Init(now, cap), events);
    RunKept(now, cap, events);
    assert RowKept(s.rows[i], s.trails[i], s.now);
    CutIff(now, cap, events, i, AfterCount);
    CutIff(now, cap, events, i, AfterFail);
    forall k | 0 <= k < 4 ensures WAITS[k] == NextRetryDelayMs(k + 1) {
      WaitsAreBackoff(k);
    }
  }

  function TotalClaims(trails: seq<Trail>): nat {
    if trails == [] then 0 else TotalClaims(trails[..|trails| - 1]) + |trails[|trails| - 1].claimedAt|
  }

  lemma {:induction false} ClaimsBounded(trails: seq<Trail>)
    requires forall i :: 0 <= i < |trails| ==> |trails[i].claimedAt| <= MAX_ATTEMPTS
    ensures TotalClaims(trails) <= MAX_ATTEMPTS * |trails|
  {
    if trails != [] {
      ClaimsBounded(trails[..|trails| - 1]);
    }
  }

  /** Send attempts over a whole run never exceed five times the rows enqueued. */
  lemma TotalSendAttempts(now: int, cap: nat, events: seq<Event>)
    ensures TotalClaims(Run(Init(now, cap), events).trails) <= MAX_ATTEMPTS * |Run(Init(now, cap), events).rows|
  {
    hide CapKept, ReachKept, AnchorKept, Run, NextRetryDelayMs, Spaced;
    InitInv(now, cap);
    RunInv(Init(now, cap), events);
    var s := Run(Init(now, cap), events);
    forall i | 0 <= i < |s.trails| ensures |s.trails[i].claimedAt| <= MAX_ATTEMPTS {
      assert RowKept(s.rows[i], s.trails[i], s.now);
    }
    ClaimsBounded(s.trails);
  }

  /** The atomic claim never loses: whatever a pass still holds is pending when its turn comes. */
  lemma ClaimAlwaysWins(now: int, cap: nat, events: seq<Event>)
    ensures var s := Run(Init(now, cap), events);
            s.batch != [] ==> s.batch[0].id < |s.rows| && s.rows[s.batch[0].id] == s.batch[0].row
                              && s.batch[0].row.status == Pending
  {
    hide CapKept, ReachKept, AnchorKept, Run, RowKept;
    InitInv(now, cap);
    RunInv(Init(now, cap), events);
  }

  // ---- What a turn does ---------------------------------------------------

  /** A proactive message on a local day that holds as many delivered proactive rows as the cap, or more. */
  predicate HeldBack(rows: seq<Row>, now: int, cap: nat, m: Message) {
    m.row.isProactive && |DeliveredIds(rows, LocalDay(now))| >= cap
  }

  /**
   * In every reachable state, the next message of a pass goes to be sent unless it
   * is proactive and its day is full; then it stays as it is, and an anchor ritual
   * is noted as held back. Replies are never held back. No other row changes.
   */
  lemma TurnOutcome(now: int, cap: nat, events: seq<Event>)
    requires var s := Run(Init(now, cap), events); s.isRunning && s.inFlight.None? && s.batch != []
    ensures var s := Run(Init(now, cap), events);
      var n := Next(s, Advance);
      var m := s.batch[0];
      && m.id < |s.rows| == |s.trails| == |n.trails| && n.batch == s.batch[1..] && n.isRunning
      && if HeldBack(s.rows, s.now, cap, m)
         then && n.inFlight == None && n.rows == s.rows && n.trails == s.trails
              && n.heldAnchorAt == s.heldAnchorAt + if m.row.isAnchorRitual then [s.now] else []
         else && n.inFlight == Some(m) && n.rows == s.rows[m.id := m.row.(status := Sending)]
              && n.trails[m.id].claimedAt == s.trails[m.id].claimedAt + [s.now] && n.heldAnchorAt == s.heldAnchorAt
  {
    hide Inv, Run, Kept, Next, HeldBack;
    RunKept(now, cap, events);
    CapConstant(Init(now, cap), events);
    NextTurn(Run(Init(now, cap), events));
  }

  lemma NextTurn(s: Sys)
    requires Kept(s) && s.isRunning && s.inFlight.None? && s.batch != []
    ensures var n := Next(s, Advance);
      var m := s.batch[0];
      && m.id < |s.rows| == |s.trails| == |n.trails| && n.batch == s.batch[1..] && n.isRunning
      && if HeldBack(s.rows, s.now, s.cap, m)
         then && n.inFlight == None && n.rows == s.rows && n.trails == s.trails
              && n.heldAnchorAt == s.heldAnchorAt + if m.row.isAnchorRitual then [s.now] else []
         else && n.inFlight == Some(m) && n.rows == s.rows[m.id := m.row.(status := Sending)]
              && n.trails[m.id].claimedAt == s.trails[m.id].claimedAt + [s.now] && n.heldAnchorAt == s.heldAnchorAt
  {
    hide RowKept, OverCap, DeliveredOn, DeliveredIds;
    assert Queued(s.rows, s.now, s.batch[0]);
    CapCheckCounts(s);
    DeliveredIsSize(s.rows, LocalDay(s.now));
  }

  // ---- Rows that are done -------------------------------------------------

  /** Delivered, failed, or left in `sending` by a crash. */
  predicate Settled(s: Sys, i: nat)
    requires i < |s.rows|
  {
    || s.rows[i].status == Delivered || s.rows[i].status == Failed
    || (s.rows[i].status == Sending && !(s.inFlight.Some? && s.inFlight.value.id == i))
  }

  lemma StepSettled(s: Sys, e: Event, i: nat)
    requires Kept(s) && i < |s.rows| && Settled(s, i)
    ensures var n := Next(s, e);
            i < |n.rows| && i < |n.trails| && n.rows[i] == s.rows[i] && n.trails[i] == s.trails[i] && Settled(n, i)
  {
    hide RowKept, SettledRow, SettledTrail, CutRow, CutTrail, OverCap, FindPending;
    if e.Advance? && s.batch != [] {
      assert Queued(s.rows, s.now, s.batch[0]);
    }
  }

  /** A settled row is never touched again, whatever happens next: in particular it is never sent again. */
  lemma {:induction false} SettledForever(s: Sys, events: seq<Event>, i: nat)
    requires Inv(s) && i < |s.rows| && Settled(s, i)
    ensures var n := Run(s, events);
            i < |n.rows| && i < |n.trails| && n.rows[i] == s.rows[i] && n.trails[i] == s.trails[i] && Settled(n, i)
  {
    hide Inv, Next, Settled;
    InvKept(s);
    if events != [] {
      var before := events[..|events| - 1];
      SettledForever(s, before, i);
      RunInv(s, before);
      InvKept(Run(s, before));
      StepSettled(Run(s, before), events[|events| - 1], i);
    }
  }

  lemma InvKept(s: Sys)
    requires Inv(s)
    ensures Kept(s)
  {
  }

  /**
   * A row being sent when the process dies stays in `sending` for good and is
   * never sent again; if its text was out, that send is lost to the table.
   */
  lemma OrphanNeverResent(s: Sys, events: seq<Event>, i: nat)
    requires Inv(s) && i < |s.rows| && s.rows[i].status == Sending
    ensures var n := Run(Next(s, Crash), events);
            i < |s.trails| && i < |n.rows| && i < |n.trails|
            && n.rows[i] == s.rows[i] && n.trails[i] == Lost(s.trails[i]) && n.trails[i].sentAt == s.trails[i].sentAt
  {
    hide Inv, Run;
    InvKept(s);
    StepInv(s, Crash);
    OrphanAtCrash(s, i);
    SettledForever(Next(s, Crash), events, i);
  }

  lemma OrphanAtCrash(s: Sys, i: nat)
    requires Kept(s) && i < |s.rows| && s.rows[i].status == Sending
    ensures var n := Next(s, Crash);
            && i < |n.rows| == |n.trails| == |s.trails|
            && n.rows[i] == s.rows[i] && n.trails[i] == Lost(s.trails[i]) && Settled(n, i)
  {
    hide RowKept;
  }

  // ---- The delivery callback ---------------------------------------------

  /** The confirmed send in flight is settled, whole or up to the statement where the process dies. */
  predicate SettlesConfirmed(s: Sys, e: Event) {
    && InFlight(s) && (e.Reply? || e.CrashInSettle?) && e.outcome.Confirmed?
    && (e.CrashInSettle? ==> GetsTo(s.inFlight.value, e.outcome, e.cut))
  }

  /** It is put back for a retry or failed: the callback threw and the process got that far. */
  predicate PutBack(e: Event)
    requires (e.Reply? || e.CrashInSettle?) && e.outcome.Confirmed?
  {
    e.outcome.callbackThrows && (e.Reply? || e.cut == AfterFail)
  }

  /**
   * The callback runs inside the same `try` as the send. A confirmed message
   * stays delivered exactly when its callback returns or the process dies before
   * the row is put back or failed; else its text, which went out, is lost to the
   * table and no day counts it.
   */
  lemma DeliveredUnlessPutBack(s: Sys, e: Event)
    requires Kept(s) && SettlesConfirmed(s, e)
    ensures var n := Next(s, e);
            var id := s.inFlight.value.id;
            && id < |s.trails| == |n.trails| == |n.rows|
            && n.trails[id].sentAt == Departed(s.trails[id], s.now).sentAt
            && (n.rows[id].status == Delivered <==> !PutBack(e))
            && (PutBack(e) ==>
                  var again := e.Reply? && s.inFlight.value.row.attempts + 1 < MAX_ATTEMPTS;
                  n.rows[id].status == if again then Pending else Failed)
            && |n.trails[id].lostAt| == |s.trails[id].lostAt| + (if PutBack(e) then 1 else 0)
            && (PutBack(e) ==> forall day :: DeliveredOn(n.rows, day) == DeliveredOn(s.rows, day))
  {
    hide RowKept, DeliveredOn;
    forall day | PutBack(e) ensures DeliveredOn(Next(s, e).rows, day) == DeliveredOn(s.rows, day) {
      PutBackCounts(s, e, day);
    }
  }

  lemma PutBackCounts(s: Sys, e: Event, day: int)
    requires Kept(s) && SettlesConfirmed(s, e) && PutBack(e)
    ensures DeliveredOn(Next(s, e).rows, day) == DeliveredOn(s.rows, day)
  {
    hide Kept, DeliveredOn, SettledRow, SettledTrail, CutRow, CutTrail, GetsTo;
    if e.Reply? { SettleCounts(s, e.outcome, day); } else { CutCounts(s, e.outcome, e.cut, day); }
  }

  /** A row ends delivered by a confirmed settlement that was not put back. */
  predicate Delivers(s: Sys, e: Event, i: nat) {
    SettlesConfirmed(s, e) && s.inFlight.value.id == i && !PutBack(e)
  }

  function DeliversOf(i: nat): (Sys, Event) -> bool {
    (s, e) => Delivers(s, e, i)
  }

  predicate DeliveredAt(s: Sys, i: nat) {
    i < |s.rows| && s.rows[i].status == Delivered
  }

  lemma DeliverStep(s: Sys, e: Event, i: nat)
    requires Kept(s)
    ensures DeliveredAt(Next(s, e), i) <==> DeliveredAt(s, i) || Delivers(s, e, i)
    ensures !(DeliveredAt(s, i) && Delivers(s, e, i))
  {
    hide RowKept, SettledTrail, CutTrail, OverCap, FindPending;
    if e.Advance? && s.batch != [] {
      assert Queued(s.rows, s.now, s.batch[0]);
    }
  }

  /** Over every run, a row is delivered if and only if one settlement delivered it, and never by two. */
  lemma {:induction false} DeliveredOnce(now: int, cap: nat, events: seq<Event>, i: nat)
    ensures Hits(Init(now, cap), events, DeliversOf(i)) == if DeliveredAt(Run(Init(now, cap), events), i) then 1 else 0
  {
    hide Next, DeliveredAt, Delivers, Kept, Inv;
    var s := Init(now, cap);
    if events == [] {
      EmptyTable(now, cap, i, AfterMark);
    } else {
      var before := events[..|events| - 1];
      DeliveredOnce(now, cap, before, i);
      RunKept(now, cap, before);
      DeliverStep(Run(s, before), events[|events| - 1], i);
    }
  }

  /**
   * What a whole settlement leaves of the row: delivered and stamped, back in the
   * queue after its wait with one attempt more, or failed at the fifth. A row whose
   * callback threw keeps the stamp of its delivery. No other row changes.
   */
  lemma SettlementOutcome(s: Sys, outcome: Outcome)
    requires Kept(s) && s.inFlight.Some?
    ensures var m := s.inFlight.value;
      var n := Next(s, Reply(outcome));
      var tried := m.row.attempts + 1;
      var stamp := if outcome.Confirmed? then Some(s.now) else m.row.deliveredAt;
      && m.id < |s.rows| && m.row.attempts <= 4 && n.inFlight == None && n.batch == s.batch
      && n.rows == s.rows[m.id :=
           if outcome == Confirmed(false) then m.row.(status := Delivered, deliveredAt := stamp)
           else if tried == 5 then m.row.(status := Failed, attempts := 5, deliveredAt := stamp)
           else m.row.(attempts := tried, deliveredAt := stamp, retryAfter := Some(s.now + WAITS[m.row.attempts]))]
  {
    hide NextRetryDelayMs, Spaced;
    var m := s.inFlight.value;
    assert RowKept(s.rows[m.id], s.trails[m.id], s.now);
    if m.row.attempts < 4 { WaitsAreBackoff(m.row.attempts); }
  }

  // ---- What the recipient sees -------------------------------------------

  /** Times of proactive rows, picked from their trails, that fall on a local day. */
  function TextsOn(entries: seq<Entry>, pick: Trail -> seq<int>, day: int): nat {
    if entries == [] then 0
    else
      var last := entries[|entries| - 1];
      TextsOn(entries[..|entries| - 1], pick, day)
      + if last.row.isProactive then Count(pick(last.trail), at => LocalDay(at) == day) else 0
  }

  function Sent(t: Trail): seq<int> {
    t.sentAt
  }

  function NeverKnown(t: Trail): seq<int> {
    t.lostAt
  }

  /** Proactive texts that reached the recipient's gateway on a local day. */
  function SendsOn(s: Sys, day: int): nat
    requires |s.rows| == |s.trails|
  {
    TextsOn(Entries(s.rows, s.trails), Sent, day)
  }

  /** Those of them the table does not know of. */
  function LostOn(s: Sys, day: int): nat
    requires |s.rows| == |s.trails|
  {
    TextsOn(Entries(s.rows, s.trails), NeverKnown, day)
  }

  predicate SplitSends(t: Trail) {
    t.sentAt == t.lostAt + Opt(t.air) + Opt(t.arrivedAt) && (t.air.None? || t.arrivedAt.None?)
  }

  lemma OneMore(times: seq<int>, x: Option<int>, day: int)
    ensures Count(times + Opt(x), at => LocalDay(at) == day)
         == Count(times, at => LocalDay(at) == day) + if IsOn(x, day) then 1 else 0
  {
    hide LocalDay;
    if x.Some? {
      CountAppend(times, x.value, at => LocalDay(at) == day);
    } else {
      assert times + [] == times;
    }
  }

  lemma SplitCounts(t: Trail, day: int)
    requires SplitSends(t)
    ensures Count(t.sentAt, at => LocalDay(at) == day)
         == Count(t.lostAt, at => LocalDay(at) == day) + if IsOn(t.arrivedAt, day) || IsOn(t.air, day) then 1 else 0
  {
    hide LocalDay;
    OneMore(t.lostAt, t.air, day);
    OneMore(t.lostAt + Opt(t.air), t.arrivedAt, day);
  }

  lemma {:induction false} SendsSplit(entries: seq<Entry>, day: int)
    requires forall i :: 0 <= i < |entries| ==> SplitSends(entries[i].trail)
    ensures TextsOn(entries, Sent, day)
         == TextsOn(entries, NeverKnown, day) + Count(entries, e => Reaches(e, day))
  {
    hide SplitSends, LocalDay;
    if entries != [] {
      SendsSplit(entries[..|entries| - 1], day);
      SplitCounts(entries[|entries| - 1].trail, day);
    }
  }

  lemma TrailsSplit(s: Sys)
    requires Kept(s)
    ensures forall i :: 0 <= i < |s.trails| ==> SplitSends(s.trails[i])
  {
    hide Spaced, NextRetryDelayMs;
    forall i | 0 <= i < |s.trails| ensures SplitSends(s.trails[i]) {
      assert RowKept(s.rows[i], s.trails[i], s.now);
    }
  }

  // ---- Texts lost, event by event -----------------------------------------

  /** When the text in flight went out, or goes out now. */
  function Departure(s: Sys): int
    requires InFlight(s)
  {
    var air := s.trails[s.inFlight.value.id].air;
    if air.Some? then air.value else s.now
  }

  /**
   * The events that lose a text: its callback throws and the row is put back or
   * failed, or its reply fails or dies with the process once it is out.
   */
  predicate Loses(s: Sys, e: Event) {
    && InFlight(s)
    && var out := s.trails[s.inFlight.value.id].air.Some?;
       match e
       case Reply(outcome) => if outcome.Confirmed? then outcome.callbackThrows else out
       case Crash => out
       case CrashInSettle(outcome, cut) =>
         GetsTo(s.inFlight.value, outcome, cut) && if outcome.Confirmed? then cut == AfterFail else out
       case _ => false
  }

  function LosesOf(i: nat): (Sys, Event) -> bool {
    (s, e) => Loses(s, e) && s.inFlight.value.id == i
  }

  /** Of proactive texts that went out on a local day. */
  function LosesOn(day: int): (Sys, Event) -> bool {
    (s, e) => Loses(s, e) && s.inFlight.value.row.isProactive && LocalDay(Departure(s)) == day
  }

  /** A step changes the lost sends of a row only by losing the text in flight. */
  lemma LostAtStep(s: Sys, e: Event, i: nat)
    requires Kept(s) && i < |Next(s, e).trails|
    ensures |s.trails| <= |Next(s, e).trails| == |Next(s, e).rows|
    ensures i >= |s.trails| ==> Next(s, e).trails[i].lostAt == []
    ensures i < |s.trails| ==>
      && Next(s, e).rows[i].isProactive == s.rows[i].isProactive
      && Next(s, e).trails[i].lostAt
         == s.trails[i].lostAt + if Loses(s, e) && s.inFlight.value.id == i then [Departure(s)] else []
  {
    hide RowKept, SettledRow, SettledTrail, CutRow, CutTrail, OverCap, FindPending;
    if e.Advance? && s.batch != [] {
      assert Queued(s.rows, s.now, s.batch[0]);
    }
    if InFlight(s) {
      var m := s.inFlight.value;
      if e.Reply? { SettledLoses(s.rows[m.id], s.trails[m.id], m, e.outcome, s.now); }
      if e.CrashInSettle? { CutLoses(s.rows[m.id], s.trails[m.id], e.outcome, e.cut, s.now); }
    }
  }

  lemma SettledLoses(r: Row, t: Trail, m: Message, outcome: Outcome, now: int)
    ensures SettledRow(r, m, outcome, now).isProactive == r.isProactive
    ensures var at := if t.air.Some? then t.air.value else now;
      var lost := if outcome.Confirmed? then outcome.callbackThrows else t.air.Some?;
      SettledTrail(t, m, outcome, now).lostAt == t.lostAt + if lost then [at] else []
  {
    assert t.lostAt + [] == t.lostAt;
  }

  lemma CutLoses(r: Row, t: Trail, outcome: Outcome, cut: Cut, now: int)
    ensures CutRow(r, outcome, cut, now).isProactive == r.isProactive
    ensures var at := if t.air.Some? then t.air.value else now;
      var lost := if outcome.Confirmed? then cut == AfterFail else t.air.Some?;
      CutTrail(t, outcome, cut, now).lostAt == t.lostAt + if lost then [at] else []
  {
    assert t.lostAt + [] == t.lostAt;
  }

  lemma TrailsGrow(s: Sys, e: Event)
    ensures |s.trails| <= |Next(s, e).trails|
  {
    hide OverCap, FindPending;
  }

  function LostBy(s: Sys, i: nat): nat {
    if i < |s.trails| then |s.trails[i].lostAt| else 0
  }

  /** Over every run, a message was lost once for each event that loses it. */
  lemma {:induction false} LossesOfMessage(now: int, cap: nat, events: seq<Event>, i: nat)
    ensures LostBy(Run(Init(now, cap), events), i) == Hits(Init(now, cap), events, LosesOf(i))
  {
    hide Next, Loses, Departure, Kept, Inv;
    var s := Init(now, cap);
    if events == [] {
      EmptyTable(now, cap, i, AfterMark);
    } else {
      var before, e := events[..|events| - 1], events[|events| - 1];
      LossesOfMessage(now, cap, before, i);
      RunKept(now, cap, before);
      TrailsGrow(Run(s, before), e);
      if i < |Next(Run(s, before), e).trails| { LostAtStep(Run(s, before), e, i); }
      assert Loses(Run(s, before), e) ==> InFlight(Run(s, before)) by { LosesInFlight(Run(s, before), e); }
    }
  }

  lemma LosesInFlight(s: Sys, e: Event)
    ensures Loses(s, e) ==> InFlight(s)
  {
  }

  /** `b` has the entries of `a`, with the same losses, and others without any. */
  predicate SameLosses(a: seq<Entry>, b: seq<Entry>) {
    && |a| <= |b|
    && (forall i :: 0 <= i < |a| ==>
          b[i].row.isProactive == a[i].row.isProactive && b[i].trail.lostAt == a[i].trail.lostAt)
    && (forall i :: |a| <= i < |b| ==> b[i].trail.lostAt == [])
  }

  lemma {:induction false} SameLost(a: seq<Entry>, b: seq<Entry>, day: int)
    requires SameLosses(a, b)
    ensures TextsOn(a, NeverKnown, day) == TextsOn(b, NeverKnown, day)
  {
    hide LocalDay;
    if |a| < |b| {
      SameLost(a, b[..|b| - 1], day);
    } else if a != [] {
      SameLost(a[..|a| - 1], b[..|b| - 1], day);
    }
  }

  /** One loss more, of entry `k`, counts one more on its day. */
  lemma {:induction false} OneMoreLost(a: seq<Entry>, b: seq<Entry>, k: nat, e: Entry, at: int, day: int)
    requires k < |a| && e.row.isProactive == a[k].row.isProactive && e.trail.lostAt == a[k].trail.lostAt + [at]
    requires b == a[k := e]
    ensures TextsOn(b, NeverKnown, day)
         == TextsOn(a, NeverKnown, day) + if e.row.isProactive && LocalDay(at) == day then 1 else 0
  {
    hide LocalDay;
    if k == |a| - 1 {
      CountAppend(a[k].trail.lostAt, at, x => LocalDay(x) == day);
      assert b[..|b| - 1] == a[..|a| - 1];
    } else {
      OneMoreLost(a[..|a| - 1], b[..|b| - 1], k, e, at, day);
    }
  }

  lemma LostOnStep(s: Sys, e: Event, day: int)
    requires Kept(s)
    ensures |Next(s, e).rows| == |Next(s, e).trails|
    ensures LostOn(Next(s, e), day) == LostOn(s, day) + if LosesOn(day)(s, e) then 1 else 0
  {
    hide Next, Loses, Departure, RowKept, LocalDay, TextsOn;
    StepKept(s, e);
    var n := Next(s, e);
    TrailsGrow(s, e);
    LosesInFlight(s, e);
    forall i: nat | i < |n.trails|
      ensures i >= |s.trails| ==> n.trails[i].lostAt == []
      ensures i < |s.trails| ==>
        && n.rows[i].isProactive == s.rows[i].isProactive
        && n.trails[i].lostAt
           == s.trails[i].lostAt + if Loses(s, e) && s.inFlight.value.id == i then [Departure(s)] else []
    {
      LostAtStep(s, e, i);
    }
    var a, b := Entries(s.rows, s.trails), Entries(n.rows, n.trails);
    if Loses(s, e) {
      var k := s.inFlight.value.id;
      var mid := a[k := b[k]];
      OneMoreLost(a, mid, k, b[k], Departure(s), day);
      SameLost(mid, b, day);
    } else {
      SameLost(a, b, day);
    }
  }

  /** Over every run, the texts of a day that were lost are the events that lost one. */
  lemma {:induction false} LossesOfDay(now: int, cap: nat, events: seq<Event>, day: int)
    ensures var s := Run(Init(now, cap), events);
            |s.rows| == |s.trails| && LostOn(s, day) == Hits(Init(now, cap), events, LosesOn(day))
  {
    hide Next, Kept, Inv, LosesOn;
    var s := Init(now, cap);
    RunKept(now, cap, events);
    KeptInTable(Run(s, events));
    if events != [] {
      var before := events[..|events| - 1];
      LossesOfDay(now, cap, before, day);
      RunKept(now, cap, before);
      LostOnStep(Run(s, before), events[|events| - 1], day);
    }
  }

  lemma KeptInTable(s: Sys)
    requires Kept(s)
    ensures |s.rows| == |s.trails|
  {
  }

  // ---- What the recipient gets --------------------------------------------

  /**
   * Over every run, what the recipient gets on a local day is what arrived or is
   * under way, which never passes the cap, plus one text for each event that lost
   * one. So the cap holds for the recipient exactly when those events are no more
   * than the room the others leave.
   */
  lemma RecipientCount(now: int, cap: nat, events: seq<Event>, day: int)
    ensures var s := Run(Init(now, cap), events);
            var losses := Hits(Init(now, cap), events, LosesOn(day));
            && |s.rows| == |s.trails|
            && SendsOn(s, day) == ReachedOn(s.rows, s.trails, day) + losses
            && ReachedOn(s.rows, s.trails, day) <= cap
            && (SendsOn(s, day) <= cap <==> losses <= cap - ReachedOn(s.rows, s.trails, day))
  {
    hide CapKept, AnchorKept, Kept, Run, Reaches, SplitSends, Hits, LosesOn;
    InitInv(now, cap);
    RunInv(Init(now, cap), events);
    CapConstant(Init(now, cap), events);
    var s := Run(Init(now, cap), events);
    TrailsSplit(s);
    SendsSplit(Entries(s.rows, s.trails), day);
    LossesOfDay(now, cap, events, day);
  }

  /** Over every run, a message went out once for each event that lost it, plus once if it arrived or is under way. */
  lemma SendsOfMessage(now: int, cap: nat, events: seq<Event>, i: nat)
    requires i < |Run(Init(now, cap), events).rows|
    ensures var s := Run(Init(now, cap), events);
            var losses := Hits(Init(now, cap), events, LosesOf(i));
            && i < |s.trails|
            && var t := s.trails[i];
               && |t.sentAt| == losses + (if t.arrivedAt.Some? || t.air.Some? then 1 else 0)
               && (t.arrivedAt.Some? <==> s.rows[i].status == Delivered)
               && (|t.sentAt| >= 2 <==> losses >= 2 || (losses == 1 && (t.arrivedAt.Some? || t.air.Some?)))
  {
    hide Inv, Run, Spaced, NextRetryDelayMs, Hits;
    RunKept(now, cap, events);
    LossesOfMessage(now, cap, events, i);
    var s := Run(Init(now, cap), events);
    assert RowKept(s.rows[i], s.trails[i], s.now);
  }

  /** In a run that loses no text the recipient gets at most `cap` proactive texts a day, and no message twice. */
  lemma RecipientSeesAtMostCap(now: int, cap: nat, events: seq<Event>, day: int)
    requires Hits(Init(now, cap), events, Loses) == 0
    ensures var s := Run(Init(now, cap), events);
            && |s.trails| == |s.rows|
            && SendsOn(s, day) <= cap
            && (forall i :: 0 <= i < |s.rows| ==> |s.trails[i].sentAt| <= 1)
  {
    hide Run, ReachedOn, Hits;
    var s := Run(Init(now, cap), events);
    RecipientCount(now, cap, events, day);
    HitsBelow(Init(now, cap), events, LosesOn(day), Loses);
    forall i | 0 <= i < |s.rows| ensures |s.trails[i].sentAt| <= 1 {
      SendsOfMessage(now, cap, events, i);
      HitsBelow(Init(now, cap), events, LosesOf(i), Loses);
    }
  }

  /** Every delivered row is stamped on the local day its text went out. */
  predicate StampedSameDay(s: Sys) {
    forall i :: 0 <= i < |s.rows| && i < |s.trails| && s.rows[i].deliveredAt.Some? && s.trails[i].arrivedAt.Some? ==>
      LocalDay(s.trails[i].arrivedAt.value) == LocalDay(s.rows[i].deliveredAt.value)
  }

  /**
   * With every text answered and stamped on the day it went out, what reached the
   * recipient is what the table counts.
   */
  lemma ReachedIsDelivered(now: int, cap: nat, events: seq<Event>, day: int)
    requires Run(Init(now, cap), events).inFlight.None? && StampedSameDay(Run(Init(now, cap), events))
    ensures var s := Run(Init(now, cap), events);
            |s.rows| == |s.trails| && ReachedOn(s.rows, s.trails, day) == DeliveredOn(s.rows, day)
  {
    hide CapKept, AnchorKept, ReachKept, Run, LocalDay, Spaced, NextRetryDelayMs;
    InitInv(now, cap);
    RunInv(Init(now, cap), events);
    var s := Run(Init(now, cap), events);
    var entries := Entries(s.rows, s.trails);
    forall i | 0 <= i < |s.rows| ensures Reaches(entries[i], day) == SentOn(s.rows[i], day) {
      assert RowKept(s.rows[i], s.trails[i], s.now);
    }
    CountBelow(entries, e => Reaches(e, day), s.rows, r => SentOn(r, day));
    CountBelow(s.rows, r => SentOn(r, day), entries, e => Reaches(e, day));
  }

  // ---- Runs that lose a text ----------------------------------------------

  /** A table of one proactive row and no pass in progress. */
  function Idle(row: Row, trail: Trail, now: int, ordinary: seq<int>): Sys {
    Sys([row], [trail], now, 1, false, [], None, [], ordinary)
  }

  function WholePass(outcome: Outcome): seq<Event> {
    [Poll, Advance, Depart, Reply(outcome), Advance]
  }

  lemma LoneQueue(row: Row, now: int)
    requires row.isProactive && !row.isAnchorRitual && row.status == Pending && Ready(row, now)
    ensures FindPending([row], now) == [Message(0, row)]
    ensures CountProactiveSentSince([row], StartOfToday(now)) == 0
  {
    hide ZonedTimeToUtc, StartOfZonedDay;
    assert PendingOfClass([row], now, true, 1) == PendingOfClass([row], now, true, 0);
    assert PendingOfClass([row], now, false, 1) == PendingOfClass([row], now, false, 0) + [Message(0, row)];
    CountNone([row], r => SentSince(r, StartOfToday(now)));
  }

  /** A lone ready proactive row, with nothing delivered today, is sent by the next pass. */
  lemma LonePass(row: Row, trail: Trail, now: int, ordinary: seq<int>, outcome: Outcome)
    requires row.isProactive && !row.isAnchorRitual && row.status == Pending && Ready(row, now)
    ensures var gone := Departed(trail.(claimedAt := trail.claimedAt + [now]), now);
            var m := Message(0, row);
            Run(Idle(row, trail, now, ordinary), WholePass(outcome))
            == Idle(SettledRow(row.(status := Sending), m, outcome, now), SettledTrail(gone, m, outcome, now), now,
                    if outcome.Confirmed? then [now, now] else [now])
  {
    hide FindPending, CountProactiveSentSince, StartOfToday, SettledRow, SettledTrail, Departed;
    LoneQueue(row, now);
    var s, e := Idle(row, trail, now, ordinary), WholePass(outcome);
    assert e[..4][..3] == e[..3] && e[..3][..2] == e[..2] && e[..2][..1] == e[..1] && e[..1][..0] == [];
    assert Run(s, e[..1]) == Next(s, Poll);
    assert Run(s, e[..2]) == Next(Next(s, Poll), Advance);
    assert Run(s, e[..3]) == Next(Next(Next(s, Poll), Advance), Depart);
    assert Run(s, e[..4]) == Next(Next(Next(Next(s, Poll), Advance), Depart), Reply(outcome));
  }

  lemma {:induction false} RunConcat(s: Sys, a: seq<Event>, b: seq<Event>)
    ensures Run(s, a + b) == Run(Run(s, a), b)
  {
    hide Next;
    if b == [] {
      assert a + b == a;
    } else {
      assert (a + b)[..|a + b| - 1] == a + b[..|b| - 1];
      RunConcat(s, a, b[..|b| - 1]);
    }
  }

  lemma RunOne(s: Sys, e: Event)
    ensures Run(s, [e]) == Next(s, e)
  {
    hide Next;
    assert [e][..0] == [];
  }

  /**
   * With a cap of one, a callback that throws, or a reply that fails after the
   * gateway took the text, makes the recipient get the same message twice.
   */
  lemma LostSendGoesTwice(now: int, outcome: Outcome)
    requires outcome == Confirmed(true) || outcome == Rejected
    ensures Run(Init(now, 1),
                [Enqueue(true, false)] + WholePass(outcome) + [Elapse(120_000)] + WholePass(Confirmed(false))).trails
         == [Trail([now, now + 120_000], [now, now + 120_000], None, Some(now + 120_000), [now], 0, None)]
  {
    hide Run, WholePass;
    var row := NewRow(true, false, now);
    var again := row.(attempts := 1, retryAfter := Some(now + 120_000),
                      deliveredAt := if outcome.Confirmed? then Some(now) else None);
    var lost := Trail([now], [now], None, None, [now], 0, None);
    var s0 := Init(now, 1);
    var arrive, first, wait, second :=
      [Enqueue(true, false)], WholePass(outcome), [Elapse(120_000)], WholePass(Confirmed(false));
    var ordinary := if outcome.Confirmed? then [now, now] else [now];
    RunOne(s0, Enqueue(true, false));
    assert Run(s0, arrive) == Idle(row, NO_TRAIL, now, []);
    LonePass(row, NO_TRAIL, now, [], outcome);
    assert Pow2(1) == 2;
    assert [] + [now] == [now] && [now] + [now + 120_000] == [now, now + 120_000];
    var s2 := Idle(again, lost, now, ordinary);
    assert Run(Run(s0, arrive), first) == s2;
    RunOne(s2, Elapse(120_000));
    var s3 := Idle(again, lost, now + 120_000, ordinary);
    LonePass(again, lost, now + 120_000, ordinary, Confirmed(false));
    RunConcat(s0, arrive, first);
    RunConcat(s0, arrive + first, wait);
    assert Run(s0, arrive + first + wait) == s3;
    RunConcat(s0, arrive + first + wait, second);
  }

  // ---- Runs that die between the statements of a settlement ---------------

  /** `n` passes whose send fails after the text went out, an hour apart. */
  function FailingPasses(n: nat): seq<Event> {
    if n == 0 then [Enqueue(true, false)] else FailingPasses(n - 1) + WholePass(Rejected) + [Elapse(MAX_DELAY_MS)]
  }

  lemma {:induction false} FailedSoFar(now: int, n: nat) returns (row: Row, trail: Trail, ordinary: seq<int>)
    requires n < MAX_ATTEMPTS
    ensures Run(Init(now, 1), FailingPasses(n)) == Idle(row, trail, now + n * MAX_DELAY_MS, ordinary)
    ensures row.isProactive && !row.isAnchorRitual && row.status == Pending && row.attempts == n
    ensures Ready(row, now + n * MAX_DELAY_MS) && trail.air.None? && trail.arrivedAt.None? && trail.alerts == 0
  {
    hide Run, WholePass, NextRetryDelayMs;
    if n == 0 {
      RunOne(Init(now, 1), Enqueue(true, false));
      row, trail, ordinary := NewRow(true, false, now), NO_TRAIL, [];
    } else {
      var r, t, o := FailedSoFar(now, n - 1);
      var at := now + (n - 1) * MAX_DELAY_MS;
      LonePass(r, t, at, o, Rejected);
      RunConcat(Init(now, 1), FailingPasses(n - 1), WholePass(Rejected));
      RunExtends(Init(now, 1), FailingPasses(n - 1) + WholePass(Rejected), Elapse(MAX_DELAY_MS));
      DelayAscends(n);
      row := SettledRow(r.(status := Sending), Message(0, r), Rejected, at);
      trail := SettledTrail(Departed(t.(claimedAt := t.claimedAt + [at]), at), Message(0, r), Rejected, at);
      ordinary := [at];
    }
  }

  /** A lone ready proactive row whose settlement the process does not survive. */
  lemma LoneCut(row: Row, trail: Trail, now: int, ordinary: seq<int>, outcome: Outcome, cut: Cut)
    requires row.isProactive && !row.isAnchorRitual && row.status == Pending && Ready(row, now)
    requires GetsTo(Message(0, row), outcome, cut)
    ensures Run(Idle(row, trail, now, ordinary), [Poll, Advance, CrashInSettle(outcome, cut)])
         == Idle(CutRow(row.(status := Sending), outcome, cut, now),
                 CutTrail(trail.(claimedAt := trail.claimedAt + [now]), outcome, cut, now), now, [])
  {
    hide FindPending, CountProactiveSentSince, StartOfToday, CutRow, CutTrail, GetsTo;
    LoneQueue(row, now);
    var s, e := Idle(row, trail, now, ordinary), [Poll, Advance, CrashInSettle(outcome, cut)];
    assert e[..2][..1] == e[..1] && e[..1][..0] == [];
    assert Run(s, e[..1]) == Next(s, Poll);
    assert Run(s, e[..2]) == Next(Next(s, Poll), Advance);
  }

  /**
   * A process that dies while it settles the fifth failure leaves five attempts
   * without the failed mark, or the mark without its alert.
   */
  lemma LastFailureCutShort(now: int, cut: Cut)
    requires cut != AfterMark
    ensures var s := Run(Init(now, 1), FailingPasses(4) + [Poll, Advance, CrashInSettle(Rejected, cut)]);
      && |s.rows| == |s.trails| == 1
      && s.rows[0].attempts == MAX_ATTEMPTS && s.trails[0].alerts == 0
      && s.rows[0].status == if cut == AfterCount then Sending else Failed
  {
    hide Run, FailingPasses;
    var row, trail, ordinary := FailedSoFar(now, 4);
    RunConcat(Init(now, 1), FailingPasses(4), [Poll, Advance, CrashInSettle(Rejected, cut)]);
    LoneCut(row, trail, now + 4 * MAX_DELAY_MS, ordinary, Rejected, cut);
  }

  /** A process that dies after a callback threw, before the row is put back, leaves the message delivered. */
  lemma ThrownYetDelivered(now: int, cut: Cut)
    requires cut != AfterFail
    ensures var s := Run(Init(now, 1), [Enqueue(true, false)] + [Poll, Advance, CrashInSettle(Confirmed(true), cut)]);
      && |s.rows| == |s.trails| == 1
      && s.rows[0].status == Delivered && s.trails[0].sentAt == [now] && s.trails[0].lostAt == []
  {
    hide Run;
    var row := NewRow(true, false, now);
    RunOne(Init(now, 1), Enqueue(true, false));
    assert Run(Init(now, 1), [Enqueue(true, false)]) == Idle(row, NO_TRAIL, now, []);
    RunConcat(Init(now, 1), [Enqueue(true, false)], [Poll, Advance, CrashInSettle(Confirmed(true), cut)]);
    LoneCut(row, NO_TRAIL, now, [], Confirmed(true), cut);
  }

  /** Two fresh proactive rows, the first claimed and out. */
  function FirstIsOut(now: int): Sys {
    var row := NewRow(true, false, now);
    Sys([row.(status := Sending), row], [Trail([now], [now], Some(now), None, [], 0, None), NO_TRAIL], now, 1, true,
        [Message(1, row)], Some(Message(0, row)), [], [now])
  }

  lemma PairQueue(now: int)
    ensures var row := NewRow(true, false, now);
      && FindPending([row, row], now) == [Message(0, row), Message(1, row)]
      && FindPending([row.(status := Sending), row], now) == [Message(1, row)]
      && CountProactiveSentSince([row, row], StartOfToday(now)) == 0
      && CountProactiveSentSince([row.(status := Sending), row], StartOfToday(now)) == 0
  {
    hide ZonedTimeToUtc, StartOfZonedDay;
    var row := NewRow(true, false, now);
    var both, claimed := [row, row], [row.(status := Sending), row];
    QueueOf(both, now);
    QueueOf(claimed, now);
    CountNone(both, r => SentSince(r, StartOfToday(now)));
    CountNone(claimed, r => SentSince(r, StartOfToday(now)));
  }

  lemma QueueOf(rows: seq<Row>, now: int)
    requires |rows| == 2 && forall i :: 0 <= i < 2 ==> !rows[i].isAnchorRitual && Ready(rows[i], now)
    ensures FindPending(rows, now)
         == (if rows[0].status == Pending then [Message(0, rows[0])] else [])
            + if rows[1].status == Pending then [Message(1, rows[1])] else []
  {
    assert PendingOfClass(rows, now, true, 1) == PendingOfClass(rows, now, true, 0);
    assert PendingOfClass(rows, now, false, 1)
        == PendingOfClass(rows, now, false, 0) + if rows[0].status == Pending then [Message(0, rows[0])] else [];
  }

  lemma RunFive(s: Sys, a: Event, b: Event, c: Event, d: Event, e: Event)
    ensures Run(s, [a, b, c, d, e]) == Next(Next(Next(Next(Next(s, a), b), c), d), e)
  {
    hide Next;
    var all := [a, b, c, d, e];
    assert all[..4][..3] == all[..3] && all[..3][..2] == all[..2] && all[..2][..1] == all[..1] && all[..1][..0] == [];
    assert Run(s, all[..1]) == Next(s, a);
    assert Run(s, all[..2]) == Next(Next(s, a), b);
    assert Run(s, all[..3]) == Next(Next(Next(s, a), b), c);
    assert Run(s, all[..4]) == Next(Next(Next(Next(s, a), b), c), d);
  }

  lemma FirstGoesOut(now: int)
    ensures var s := Next(Next(Init(now, 1), Enqueue(true, false)), Enqueue(true, false));
            Next(Next(Next(s, Poll), Advance), Depart) == FirstIsOut(now)
  {
    hide FindPending, CountProactiveSentSince, StartOfToday;
    PairQueue(now);
    var row := NewRow(true, false, now);
    var queue := [Message(0, row), Message(1, row)];
    var s := Next(Next(Init(now, 1), Enqueue(true, false)), Enqueue(true, false));
    assert s == Sys([row, row], [NO_TRAIL, NO_TRAIL], now, 1, false, [], None, [], []);
    assert Next(s, Poll) == s.(isRunning := true, batch := queue);
    assert queue[1..] == [queue[1]] && [] + [now] == [now];
  }

  function BothOut(now: int): Sys {
    var row := NewRow(true, false, now);
    Sys([row.(status := Sending), row.(status := Delivered, deliveredAt := Some(now))],
        [Trail([now], [now], None, None, [now], 0, None), Trail([now], [now], None, Some(now), [], 0, None)],
        now, 1, true, [], None, [], [now, now])
  }

  lemma SecondGoesOut(now: int)
    ensures Next(Next(Next(Next(Next(FirstIsOut(now), Crash), Poll), Advance), Depart), Reply(Confirmed(false)))
         == BothOut(now)
  {
    hide FindPending, CountProactiveSentSince, StartOfToday;
    PairQueue(now);
    var row := NewRow(true, false, now);
    var lost := Trail([now], [now], None, None, [now], 0, None);
    var s := Next(FirstIsOut(now), Crash);
    assert [] + [now] == [now] && [now] + [now] == [now, now];
    assert s == Sys([row.(status := Sending), row], [lost, NO_TRAIL], now, 1, false, [], None, [], []);
    var p := s.(isRunning := true, batch := [Message(1, row)]);
    assert Next(s, Poll) == p;
    var out := Trail([now], [now], Some(now), None, [], 0, None);
    assert Next(Next(p, Advance), Depart)
        == p.(rows := [row.(status := Sending), row.(status := Sending)], trails := [lost, out],
              batch := [], inFlight := Some(Message(1, row)), ordinarySentAt := [now]);
  }

  /** With a cap of one, a crash while a text is out lets the next pass send another on the same day. */
  lemma CrashedSendPassesCap(now: int)
    ensures var s := Run(Init(now, 1), [Enqueue(true, false), Enqueue(true, false), Poll, Advance, Depart]
                                       + [Crash, Poll, Advance, Depart, Reply(Confirmed(false))]);
      && |s.rows| == |s.trails| && s.cap == 1
      && SendsOn(s, LocalDay(now)) == 2 && DeliveredOn(s.rows, LocalDay(now)) == 1
  {
    hide Next, Run, SendsOn, DeliveredOn;
    RunConcat(Init(now, 1), [Enqueue(true, false), Enqueue(true, false), Poll, Advance, Depart],
              [Crash, Poll, Advance, Depart, Reply(Confirmed(false))]);
    RunFive(Init(now, 1), Enqueue(true, false), Enqueue(true, false), Poll, Advance, Depart);
    FirstGoesOut(now);
    RunFive(FirstIsOut(now), Crash, Poll, Advance, Depart, Reply(Confirmed(false)));
    SecondGoesOut(now);
    CountsOfPair(now);
  }

  lemma CountsOfPair(now: int)
    ensures var s := BothOut(now);
      SendsOn(s, LocalDay(now)) == 2 && DeliveredOn(s.rows, LocalDay(now)) == 1
  {
    hide LocalDay;
    var s, day := BothOut(now), LocalDay(now);
    var entries := Entries(s.rows, s.trails);
    OneMore([], Some(now), day);
    assert [] + Opt(Some(now)) == [now];
    assert entries[..1][..0] == [] && entries[..1] == [entries[0]];
    assert TextsOn(entries[..1], Sent, day) == 1;
    assert s.rows[..1][..0] == [];
    assert Count(s.rows[..1], r => SentOn(r, day)) == 0;
  }
}
