/** What every run of the outbox keeps. */
module OutboxSafety {
  import opened Common
  import opened Counting
  import opened ZonedTime
  import opened OutboxTable
  import opened OutboxMachine

  // ---- Rows and their trails ---------------------------------------------

  predicate Spaced(claimedAt: seq<int>) {
    forall k :: 0 <= k < |claimedAt| - 1 ==> claimedAt[k] + NextRetryDelayMs(k + 1) <= claimedAt[k + 1]
  }

  function Opt(x: Option<int>): seq<int> {
    if x.Some? then [x.value] else []
  }

  /**
   * The claims of a row account for its attempts, plus the one under way or
   * delivered unless a crash fell right after its count; its sends were lost, are
   * out, or arrived. Five attempts mean failed, with one alert, but for such crashes.
   */
  predicate RowKept(r: Row, t: Trail, now: int) {
    && |t.claimedAt|
       == r.attempts
          + (if (r.status == Sending || r.status == Delivered) && t.cut != Some(AfterCount) then 1 else 0)
    && |t.sentAt| <= |t.claimedAt|
    && t.sentAt == t.lostAt + Opt(t.air) + Opt(t.arrivedAt)
    && Spaced(t.claimedAt)
    && (forall k :: 0 <= k < |t.claimedAt| ==> t.claimedAt[k] <= now)
    && r.attempts <= MAX_ATTEMPTS
    && (r.attempts == MAX_ATTEMPTS <==>
          r.status == Failed || (t.cut == Some(AfterCount) && |t.claimedAt| == MAX_ATTEMPTS))
    && t.alerts == (if r.status == Failed && t.cut != Some(AfterFail) then 1 else 0)
    && (t.cut.Some? ==> r.status != Pending && t.air.None?)
    && (t.cut == Some(AfterCount) ==> r.status != Failed)
    && (t.cut == Some(AfterFail) ==> r.status == Failed)
    && (t.air.Some? ==> r.status == Sending && t.air.value <= now)
    && (t.arrivedAt.Some? <==> r.status == Delivered)
    && (t.arrivedAt.Some? ==> r.deliveredAt.Some? && t.arrivedAt.value <= r.deliveredAt.value)
    && (r.deliveredAt.Some? ==> r.deliveredAt.value <= now)
    && (r.status == Pending && r.attempts > 0 ==>
          r.retryAfter.Some? && t.claimedAt[r.attempts - 1] + NextRetryDelayMs(r.attempts) <= r.retryAfter.value)
  }

  /** The pass in memory agrees with the table: nothing it still has to send was touched since it read it. */
  predicate PassKept(s: Sys) {
    && (!s.isRunning ==> s.batch == [] && s.inFlight == None)
    && (forall k :: 0 <= k < |s.batch| ==> Queued(s.rows, s.now, s.batch[k]))
    && (forall j, k :: 0 <= j < k < |s.batch| ==> s.batch[j].id != s.batch[k].id)
    && (s.inFlight.Some? ==>
          var m := s.inFlight.value;
          && m.id < |s.rows| == |s.trails| && m.row.status == Pending && s.rows[m.id] == m.row.(status := Sending)
          && |s.trails[m.id].lostAt| <= s.rows[m.id].attempts && s.trails[m.id].cut.None?
          && forall k :: 0 <= k < |s.batch| ==> s.batch[k].id != m.id)
    && (forall i :: 0 <= i < |s.trails| && s.trails[i].air.Some? ==> s.inFlight.Some? && s.inFlight.value.id == i)
  }

  predicate Kept(s: Sys) {
    && |s.trails| == |s.rows|
    && (forall i :: 0 <= i < |s.rows| ==> RowKept(s.rows[i], s.trails[i], s.now))
    && PassKept(s)
  }

  lemma {:induction false} DelayAscends(n: nat)
    ensures BASE_DELAY_MS <= NextRetryDelayMs(n) <= MAX_DELAY_MS
  {
    assert Pow2(n) >= 1 by { if n > 0 { DelayAscends(n - 1); } }
  }

  lemma ClaimKept(r: Row, t: Trail, now: int)
    requires RowKept(r, t, now) && r.status == Pending && Ready(r, now)
    ensures RowKept(r.(status := Sending), t.(claimedAt := t.claimedAt + [now]), now)
    ensures |t.lostAt| <= r.attempts && t.air.None? && t.cut.None?
  {
    hide NextRetryDelayMs, Spaced;
    var claims := |t.claimedAt|;
    if claims > 0 {
      assert r.attempts == claims && t.claimedAt[claims - 1] + NextRetryDelayMs(claims) <= now;
    }
    SpacedGrows(t.claimedAt, now);
  }

  lemma SpacedGrows(claimedAt: seq<int>, at: int)
    requires Spaced(claimedAt)
    requires claimedAt != [] ==> claimedAt[|claimedAt| - 1] + NextRetryDelayMs(|claimedAt|) <= at
    ensures Spaced(claimedAt + [at])
  {
    hide NextRetryDelayMs;
  }

  lemma FailRowKept(r: Row, t: Trail, m: Message, now: int)
    requires r.status == Sending || r.status == Delivered
    requires |t.claimedAt| == r.attempts + 1 && |t.sentAt| <= |t.claimedAt| && t.sentAt == t.lostAt
    requires Spaced(t.claimedAt) && forall k :: 0 <= k < |t.claimedAt| ==> t.claimedAt[k] <= now
    requires r.attempts == m.row.attempts < MAX_ATTEMPTS && t.alerts == 0
    requires t.air.None? && t.arrivedAt.None? && t.cut.None?
    requires r.deliveredAt.Some? ==> r.deliveredAt.value <= now
    ensures RowKept(FailedRow(r, m, now), t.(alerts := if RetriesExhausted(m.row.attempts + 1) then 1 else 0), now)
  {
    hide NextRetryDelayMs, Spaced;
  }

  lemma DeliverRowKept(r: Row, t: Trail, now: int)
    requires r.status == Sending && RowKept(r, t, now) && t.air.Some? && t.cut.None?
    ensures RowKept(DeliveredRow(r, now), t.(air := None, arrivedAt := t.air), now)
  {
    hide NextRetryDelayMs, Spaced;
  }

  lemma SettleRowKept(r: Row, t: Trail, m: Message, outcome: Outcome, now: int)
    requires r.status == Sending && r == m.row.(status := Sending) && RowKept(r, t, now)
    requires |t.lostAt| <= r.attempts && t.cut.None?
    ensures RowKept(SettledRow(r, m, outcome, now), SettledTrail(t, m, outcome, now), now)
    ensures SettledTrail(t, m, outcome, now).air.None?
  {
    hide NextRetryDelayMs, Spaced, FailedRow, RowKept;
    LeaveRowKept(r, t, now);
    match outcome
    case Confirmed(throws) =>
      if throws {
        LostIsAllSent(r, Departed(t, now), now);
        FailRowKept(DeliveredRow(r, now), Lost(Departed(t, now)), m, now);
      } else {
        DeliverRowKept(r, Departed(t, now), now);
      }
    case Rejected =>
      LostIsAllSent(r, t, now);
      FailRowKept(r, Lost(t), m, now);
  }

  lemma LostIsAllSent(r: Row, t: Trail, now: int)
    requires r.status == Sending && RowKept(r, t, now) && t.cut.None?
    ensures var l := Lost(t);
      && |l.claimedAt| == r.attempts + 1 && |l.sentAt| <= |l.claimedAt| && l.sentAt == l.lostAt && Spaced(l.claimedAt)
      && (forall k :: 0 <= k < |l.claimedAt| ==> l.claimedAt[k] <= now)
      && r.attempts < MAX_ATTEMPTS && l.alerts == 0 && l.air.None? && l.arrivedAt.None? && l.cut.None?
      && (r.deliveredAt.Some? ==> r.deliveredAt.value <= now)
  {
    hide NextRetryDelayMs, Spaced;
  }

  lemma LeaveRowKept(r: Row, t: Trail, now: int)
    requires RowKept(r, t, now) && r.status == Sending && |t.lostAt| <= r.attempts && t.cut.None?
    ensures RowKept(r, Departed(t, now), now)
  {
    hide NextRetryDelayMs, Spaced;
  }

  lemma LostRowKept(r: Row, t: Trail, now: int)
    requires RowKept(r, t, now)
    ensures RowKept(r, Lost(t), now)
  {
    hide NextRetryDelayMs, Spaced;
  }

  lemma LaterKept(r: Row, t: Trail, now: int, later: int)
    requires RowKept(r, t, now) && now <= later
    ensures RowKept(r, t, later)
  {
    hide NextRetryDelayMs, Spaced;
  }

  lemma TakeKept(s: Sys)
    requires Kept(s) && s.isRunning && s.inFlight.None? && s.batch != []
    ensures Kept(Take(s))
  {
    hide RowKept, OverCap;
    var m := s.batch[0];
    assert Queued(s.rows, s.now, m);
    ClaimKept(s.rows[m.id], s.trails[m.id], s.now);
  }

  lemma SettleKept(s: Sys, outcome: Outcome)
    requires Kept(s) && s.inFlight.Some?
    ensures Kept(Settle(s, s.inFlight.value, outcome))
  {
    hide RowKept, SettledRow, SettledTrail;
    var m := s.inFlight.value;
    SettleRowKept(s.rows[m.id], s.trails[m.id], m, outcome, s.now);
  }

  lemma LeaveKept(s: Sys)
    requires Kept(s) && s.inFlight.Some?
    ensures Kept(Leave(s, s.inFlight.value))
  {
    hide RowKept;
    var m := s.inFlight.value;
    LeaveRowKept(s.rows[m.id], s.trails[m.id], s.now);
  }

  lemma CrashKept(s: Sys)
    requires Kept(s)
    ensures Kept(Crashed(s))
  {
    hide RowKept;
    if s.inFlight.Some? {
      LostRowKept(s.rows[s.inFlight.value.id], s.trails[s.inFlight.value.id], s.now);
    }
  }

  /** However far its settlement got, the row is accounted for. */
  lemma CutRowKept(r: Row, t: Trail, m: Message, outcome: Outcome, cut: Cut, now: int)
    requires r.status == Sending && r == m.row.(status := Sending) && RowKept(r, t, now)
    requires |t.lostAt| <= r.attempts && t.cut.None? && GetsTo(m, outcome, cut)
    ensures RowKept(CutRow(r, outcome, cut, now), CutTrail(t, outcome, cut, now), now)
  {
    hide NextRetryDelayMs, Spaced, RowKept;
    LeaveRowKept(r, t, now);
    if outcome.Confirmed? {
      LostIsAllSent(r, Departed(t, now), now);
      DeliverRowKept(r, Departed(t, now), now);
      if cut != AfterFail { CutDelivered(r, Departed(t, now), cut, now); }
    } else {
      LostIsAllSent(r, t, now);
    }
    if outcome.Rejected? || cut == AfterFail {
      CutLost(if outcome.Confirmed? then DeliveredRow(r, now) else r,
              Lost(if outcome.Confirmed? then Departed(t, now) else t), cut, now);
    }
  }

  lemma CutDelivered(r: Row, t: Trail, cut: Cut, now: int)
    requires RowKept(DeliveredRow(r, now), t.(air := None, arrivedAt := t.air), now) && t.cut.None? && cut != AfterFail
    ensures var row := DeliveredRow(r, now);
      RowKept(if cut == AfterMark then row else row.(attempts := r.attempts + 1),
              t.(air := None, arrivedAt := t.air, cut := Some(cut)), now)
  {
    hide NextRetryDelayMs, Spaced;
  }

  lemma CutLost(r: Row, l: Trail, cut: Cut, now: int)
    requires cut == AfterFail || (cut == AfterCount && r.status == Sending)
    requires |l.claimedAt| == r.attempts + 1 && |l.sentAt| <= |l.claimedAt| && l.sentAt == l.lostAt
    requires Spaced(l.claimedAt) && forall k :: 0 <= k < |l.claimedAt| ==> l.claimedAt[k] <= now
    requires r.attempts < MAX_ATTEMPTS && l.alerts == 0 && l.air.None? && l.arrivedAt.None? && l.cut.None?
    requires r.deliveredAt.Some? ==> r.deliveredAt.value <= now
    requires cut == AfterFail ==> r.attempts + 1 == MAX_ATTEMPTS
    ensures RowKept(r.(attempts := r.attempts + 1, status := if cut == AfterFail then Failed else Sending),
                    l.(cut := Some(cut)), now)
  {
    hide NextRetryDelayMs, Spaced;
  }

  lemma CutKept(s: Sys, outcome: Outcome, cut: Cut)
    requires Kept(s) && InFlight(s) && GetsTo(s.inFlight.value, outcome, cut)
    ensures Kept(CutShort(s, s.inFlight.value, outcome, cut))
  {
    hide RowKept, CutRow;
    var m := s.inFlight.value;
    CutRowKept(s.rows[m.id], s.trails[m.id], m, outcome, cut, s.now);
  }

  lemma PollKept(s: Sys)
    requires Kept(s) && !s.isRunning
    ensures Kept(Next(s, Poll))
  {
    hide RowKept, FindPending;
    QueueIsSorted(s.rows, s.now);
    var found := FindPending(s.rows, s.now);
    forall k | 0 <= k < |found| ensures Queued(s.rows, s.now, found[k]) {
      assert found[k] in found;
    }
  }

  lemma StepKept(s: Sys, e: Event)
    requires Kept(s)
    ensures Kept(Next(s, e))
  {
    hide RowKept, Take, Settle, Leave, Crashed, CutShort, GetsTo;
    match e
    case Enqueue(p, a) => assert RowKept(NewRow(p, a, s.now), NO_TRAIL, s.now) by { NewRowKept(p, a, s.now); }
    case Depart => if s.inFlight.Some? { LeaveKept(s); }
    case Elapse(ms) =>
      forall i | 0 <= i < |s.rows| ensures RowKept(s.rows[i], s.trails[i], s.now + ms) {
        LaterKept(s.rows[i], s.trails[i], s.now, s.now + ms);
      }
    case Poll => if !s.isRunning { PollKept(s); }
    case Advance => if s.isRunning && s.inFlight.None? && s.batch != [] { TakeKept(s); }
    case Reply(outcome) => if s.inFlight.Some? { SettleKept(s, outcome); }
    case Crash => CrashKept(s);
    case CrashInSettle(outcome, cut) =>
      if InFlight(s) && GetsTo(s.inFlight.value, outcome, cut) { CutKept(s, outcome, cut); }
  }

  lemma NewRowKept(p: bool, a: bool, now: int)
    ensures RowKept(NewRow(p, a, now), NO_TRAIL, now)
  {
  }

  // ---- The daily cap ------------------------------------------------------

  /**
   * No local day holds more than `cap` delivered proactive rows, and a proactive row
   * in flight still has room today.
   */
  ghost predicate CapKept(s: Sys) {
    && (forall day :: DeliveredOn(s.rows, day) <= s.cap)
    && (s.inFlight.Some? && s.inFlight.value.row.isProactive ==> DeliveredOn(s.rows, LocalDay(s.now)) < s.cap)
  }

  /** Replacing a row changes the day's count by that row alone. */
  lemma DeliveredUpdate(rows: seq<Row>, i: nat, r: Row, day: int)
    requires i < |rows|
    ensures DeliveredOn(rows[i := r], day)
         == DeliveredOn(rows, day) - (if SentOn(rows[i], day) then 1 else 0) + if SentOn(r, day) then 1 else 0
  {
    CountUpdate(rows, i, r, r => SentOn(r, day));
  }

  lemma DeliveredAppend(rows: seq<Row>, r: Row, day: int)
    requires r.status == Pending
    ensures DeliveredOn(rows + [r], day) == DeliveredOn(rows, day)
  {
    CountAppend(rows, r, r => SentOn(r, day));
  }

  lemma NothingDeliveredLater(s: Sys, day: int)
    requires Kept(s) && LocalDay(s.now) < day
    ensures DeliveredOn(s.rows, day) == 0
  {
    hide Spaced, NextRetryDelayMs;
    forall i | 0 <= i < |s.rows| ensures !SentOn(s.rows[i], day) {
      assert RowKept(s.rows[i], s.trails[i], s.now);
    }
    CountNone(s.rows, r => SentOn(r, day));
  }

  lemma CapCheckCounts(s: Sys)
    requires Kept(s)
    ensures OverCap(s) <==> DeliveredOn(s.rows, LocalDay(s.now)) >= s.cap
  {
    hide StartOfToday, CountProactiveSentSince, DeliveredOn;
    forall i | 0 <= i < |s.rows| && s.rows[i].deliveredAt.Some? ensures s.rows[i].deliveredAt.value <= s.now {
      assert RowKept(s.rows[i], s.trails[i], s.now);
    }
    SentTodayCounts(s.rows, s.now);
  }

  lemma TakeCounts(s: Sys, day: int)
    requires Kept(s) && s.batch != []
    ensures DeliveredOn(Take(s).rows, day) == DeliveredOn(s.rows, day)
  {
    hide OverCap, RowKept, DeliveredOn;
    var m := s.batch[0];
    assert Queued(s.rows, s.now, m);
    DeliveredUpdate(s.rows, m.id, s.rows[m.id].(status := Sending), day);
  }

  /** Settling adds one delivery to today exactly when a proactive send was confirmed and its callback returned. */
  lemma SettleCounts(s: Sys, outcome: Outcome, day: int)
    requires Kept(s) && s.inFlight.Some?
    ensures var m := s.inFlight.value;
            var counted := outcome == Confirmed(false) && m.row.isProactive && day == LocalDay(s.now);
            DeliveredOn(Settle(s, m, outcome).rows, day) == DeliveredOn(s.rows, day) + if counted then 1 else 0
  {
    hide RowKept, NextRetryDelayMs, DeliveredOn;
    var m := s.inFlight.value;
    DeliveredUpdate(s.rows, m.id, SettledRow(s.rows[m.id], m, outcome, s.now), day);
  }

  lemma StepCap(s: Sys, e: Event)
    requires Kept(s) && CapKept(s)
    ensures CapKept(Next(s, e))
  {
    hide RowKept, PassKept, Take, Settle, CutShort, GetsTo, DeliveredOn, LocalDay;
    var n := Next(s, e);
    match e
    case Depart =>
    case Enqueue(p, a) =>
      forall day ensures DeliveredOn(n.rows, day) == DeliveredOn(s.rows, day) {
        DeliveredAppend(s.rows, NewRow(p, a, s.now), day);
      }
    case Elapse(ms) => if DeliveredOn(s.rows, LocalDay(s.now)) < s.cap { MidnightMakesRoom(s, ms); }
    case Poll =>
    case Advance => if s.isRunning && s.inFlight.None? && s.batch != [] { TakeCap(s); }
    case Reply(outcome) => if s.inFlight.Some? && s.inFlight.value.id < |s.rows| { SettleCap(s, outcome); }
    case Crash =>
    case CrashInSettle(outcome, cut) =>
      if InFlight(s) && GetsTo(s.inFlight.value, outcome, cut) { CutCap(s, outcome, cut); }
  }

  /** A settlement cut short adds one delivery to today exactly when a proactive send was marked and not failed. */
  lemma CutCounts(s: Sys, outcome: Outcome, cut: Cut, day: int)
    requires Kept(s) && InFlight(s)
    ensures var m := s.inFlight.value;
            var counted := outcome.Confirmed? && cut != AfterFail && m.row.isProactive && day == LocalDay(s.now);
            DeliveredOn(CutShort(s, m, outcome, cut).rows, day) == DeliveredOn(s.rows, day) + if counted then 1 else 0
  {
    hide RowKept, DeliveredOn;
    var m := s.inFlight.value;
    DeliveredUpdate(s.rows, m.id, CutRow(s.rows[m.id], outcome, cut, s.now), day);
  }

  lemma CutCap(s: Sys, outcome: Outcome, cut: Cut)
    requires Kept(s) && CapKept(s) && InFlight(s)
    ensures CapKept(CutShort(s, s.inFlight.value, outcome, cut))
  {
    hide Kept, DeliveredOn, LocalDay, CutRow, CutTrail;
    var n := CutShort(s, s.inFlight.value, outcome, cut);
    forall day ensures DeliveredOn(n.rows, day) <= s.cap {
      CutCounts(s, outcome, cut, day);
    }
  }

  lemma MidnightMakesRoom(s: Sys, ms: nat)
    requires Kept(s) && DeliveredOn(s.rows, LocalDay(s.now)) < s.cap
    ensures DeliveredOn(s.rows, LocalDay(s.now + ms)) < s.cap
  {
    hide Kept, DeliveredOn;
    if LocalDay(s.now) < LocalDay(s.now + ms) {
      NothingDeliveredLater(s, LocalDay(s.now + ms));
    }
  }

  lemma TakeCap(s: Sys)
    requires Kept(s) && CapKept(s) && s.inFlight.None? && s.batch != []
    ensures CapKept(Take(s))
  {
    hide RowKept, DeliveredOn, LocalDay, OverCap;
    CapCheckCounts(s);
    forall day ensures DeliveredOn(Take(s).rows, day) == DeliveredOn(s.rows, day) {
      TakeCounts(s, day);
    }
  }

  lemma InFlightInTable(s: Sys)
    requires Kept(s) && s.inFlight.Some?
    ensures s.inFlight.value.id < |s.rows| == |s.trails|
  {
  }

  lemma SettleCap(s: Sys, outcome: Outcome)
    requires Kept(s) && CapKept(s) && s.inFlight.Some?
    ensures CapKept(Settle(s, s.inFlight.value, outcome))
  {
    hide Kept, DeliveredOn, LocalDay, SettledRow, SettledTrail;
    assert s.inFlight.value.id < |s.rows| == |s.trails| by { InFlightInTable(s); }
    var n := Settle(s, s.inFlight.value, outcome);
    forall day ensures DeliveredOn(n.rows, day) <= s.cap {
      SettleCounts(s, outcome, day);
    }
  }

  // ---- What the recipient sees -------------------------------------------

  /** A row with its trail. */
  datatype Entry = Entry(row: Row, trail: Trail)

  function Entries(rows: seq<Row>, trails: seq<Trail>): seq<Entry>
    requires |rows| == |trails|
  {
    seq(|rows|, i requires 0 <= i < |rows| => Entry(rows[i], trails[i]))
  }

  predicate IsOn(at: Option<int>, day: int) {
    at.Some? && LocalDay(at.value) == day
  }

  /** A proactive text that went out on a local day and ended delivered, or whose reply is awaited. */
  predicate Reaches(e: Entry, day: int) {
    e.row.isProactive && (IsOn(e.trail.arrivedAt, day) || IsOn(e.trail.air, day))
  }

  function ReachedOn(rows: seq<Row>, trails: seq<Trail>, day: int): nat
    requires |rows| == |trails|
  {
    Count(Entries(rows, trails), e => Reaches(e, day))
  }

  lemma ReachedUpdate(rows: seq<Row>, trails: seq<Trail>, i: nat, r: Row, t: Trail, day: int)
    requires |rows| == |trails| && i < |rows|
    ensures ReachedOn(rows[i := r], trails[i := t], day)
         == ReachedOn(rows, trails, day) - (if Reaches(Entry(rows[i], trails[i]), day) then 1 else 0)
            + if Reaches(Entry(r, t), day) then 1 else 0
  {
    hide Reaches;
    assert Entries(rows[i := r], trails[i := t]) == Entries(rows, trails)[i := Entry(r, t)];
    CountUpdate(Entries(rows, trails), i, Entry(r, t), e => Reaches(e, day));
  }

  lemma ReachedAppend(rows: seq<Row>, trails: seq<Trail>, r: Row, day: int)
    requires |rows| == |trails|
    ensures ReachedOn(rows + [r], trails + [NO_TRAIL], day) == ReachedOn(rows, trails, day)
  {
    assert Entries(rows + [r], trails + [NO_TRAIL]) == Entries(rows, trails) + [Entry(r, NO_TRAIL)];
    CountAppend(Entries(rows, trails), Entry(r, NO_TRAIL), e => Reaches(e, day));
  }

  /** At most `cap` proactive texts of a day arrived or may yet, and one still to go out has room today. */
  ghost predicate ReachKept(s: Sys) {
    && |s.rows| == |s.trails|
    && (forall day :: ReachedOn(s.rows, s.trails, day) <= s.cap)
    && (s.inFlight.Some? && s.inFlight.value.row.isProactive ==>
          var m := s.inFlight.value;
          m.id < |s.trails| && (s.trails[m.id].air.None? ==> ReachedOn(s.rows, s.trails, LocalDay(s.now)) < s.cap))
  }

  /** A text that went out today can only have been stamped today. */
  lemma ReachedAreDelivered(s: Sys)
    requires Kept(s) && s.inFlight.None?
    ensures ReachedOn(s.rows, s.trails, LocalDay(s.now)) <= DeliveredOn(s.rows, LocalDay(s.now))
  {
    hide LocalDay;
    var day := LocalDay(s.now);
    forall i | 0 <= i < |s.rows| && Reaches(Entry(s.rows[i], s.trails[i]), day) ensures SentOn(s.rows[i], day) {
      assert RowKept(s.rows[i], s.trails[i], s.now);
      DaysAscend(s.trails[i].arrivedAt.value, s.rows[i].deliveredAt.value);
      DaysAscend(s.rows[i].deliveredAt.value, s.now);
    }
    CountBelow(Entries(s.rows, s.trails), e => Reaches(e, day), s.rows, r => SentOn(r, day));
  }

  lemma NothingReachedLater(s: Sys, day: int)
    requires Kept(s) && LocalDay(s.now) < day
    ensures ReachedOn(s.rows, s.trails, day) == 0
  {
    hide Spaced, NextRetryDelayMs;
    var entries := Entries(s.rows, s.trails);
    forall i | 0 <= i < |entries| ensures !Reaches(entries[i], day) {
      assert RowKept(s.rows[i], s.trails[i], s.now);
    }
    CountNone(entries, e => Reaches(e, day));
  }

  lemma TakeReach(s: Sys)
    requires Kept(s) && ReachKept(s) && s.inFlight.None? && s.batch != []
    ensures ReachKept(Take(s))
  {
    hide RowKept, ReachedOn, DeliveredOn, OverCap, LocalDay;
    var m := s.batch[0];
    assert Queued(s.rows, s.now, m);
    CapCheckCounts(s);
    ReachedAreDelivered(s);
    var trail := s.trails[m.id];
    forall day ensures ReachedOn(Take(s).rows, Take(s).trails, day) == ReachedOn(s.rows, s.trails, day) {
      ReachedUpdate(s.rows, s.trails, m.id, s.rows[m.id].(status := Sending),
                    trail.(claimedAt := trail.claimedAt + [s.now]), day);
    }
  }

  lemma LeaveReached(s: Sys, day: int)
    requires Kept(s) && s.inFlight.Some?
    ensures var m := s.inFlight.value;
            var first := m.row.isProactive && s.trails[m.id].air.None? && day == LocalDay(s.now);
            ReachedOn(Leave(s, m).rows, Leave(s, m).trails, day)
            == ReachedOn(s.rows, s.trails, day) + if first then 1 else 0
  {
    hide Spaced, NextRetryDelayMs, ReachedOn, LocalDay;
    var m := s.inFlight.value;
    assert RowKept(s.rows[m.id], s.trails[m.id], s.now);
    assert s.rows[m.id := s.rows[m.id]] == s.rows;
    ReachedUpdate(s.rows, s.trails, m.id, s.rows[m.id], Departed(s.trails[m.id], s.now), day);
  }

  lemma SettleReached(s: Sys, outcome: Outcome, day: int)
    requires Kept(s) && s.inFlight.Some?
    ensures var m := s.inFlight.value;
            var out := outcome == Confirmed(false) && m.row.isProactive && s.trails[m.id].air.None?;
            var first := out && day == LocalDay(s.now);
            ReachedOn(Settle(s, m, outcome).rows, Settle(s, m, outcome).trails, day)
            <= ReachedOn(s.rows, s.trails, day) + if first then 1 else 0
  {
    hide Spaced, NextRetryDelayMs, ReachedOn, LocalDay;
    var m := s.inFlight.value;
    assert RowKept(s.rows[m.id], s.trails[m.id], s.now);
    ReachedUpdate(s.rows, s.trails, m.id, SettledRow(s.rows[m.id], m, outcome, s.now),
                  SettledTrail(s.trails[m.id], m, outcome, s.now), day);
  }

  lemma CrashReached(s: Sys, day: int)
    requires Kept(s)
    ensures ReachedOn(Crashed(s).rows, Crashed(s).trails, day) <= ReachedOn(s.rows, s.trails, day)
  {
    hide RowKept, ReachedOn, LocalDay;
    if s.inFlight.Some? {
      var id := s.inFlight.value.id;
      assert s.rows[id := s.rows[id]] == s.rows;
      ReachedUpdate(s.rows, s.trails, id, s.rows[id], Lost(s.trails[id]), day);
    }
  }

  lemma CutReached(s: Sys, outcome: Outcome, cut: Cut, day: int)
    requires Kept(s) && InFlight(s)
    ensures var m := s.inFlight.value;
            var out := outcome.Confirmed? && m.row.isProactive && s.trails[m.id].air.None?;
            var first := out && day == LocalDay(s.now);
            var n := CutShort(s, m, outcome, cut);
            ReachedOn(n.rows, n.trails, day) <= ReachedOn(s.rows, s.trails, day) + if first then 1 else 0
  {
    hide Spaced, NextRetryDelayMs, ReachedOn, LocalDay;
    var m := s.inFlight.value;
    assert RowKept(s.rows[m.id], s.trails[m.id], s.now);
    ReachedUpdate(s.rows, s.trails, m.id, CutRow(s.rows[m.id], outcome, cut, s.now),
                  CutTrail(s.trails[m.id], outcome, cut, s.now), day);
  }

  lemma CutReach(s: Sys, outcome: Outcome, cut: Cut)
    requires Kept(s) && ReachKept(s) && InFlight(s)
    ensures ReachKept(CutShort(s, s.inFlight.value, outcome, cut))
  {
    hide RowKept, ReachedOn, LocalDay, CutRow, CutTrail;
    var n := CutShort(s, s.inFlight.value, outcome, cut);
    forall day ensures ReachedOn(n.rows, n.trails, day) <= s.cap {
      CutReached(s, outcome, cut, day);
    }
  }

  lemma LeaveReach(s: Sys)
    requires Kept(s) && ReachKept(s) && s.inFlight.Some?
    ensures ReachKept(Leave(s, s.inFlight.value))
  {
    hide RowKept, ReachedOn, LocalDay;
    var n := Leave(s, s.inFlight.value);
    forall day ensures ReachedOn(n.rows, n.trails, day) <= s.cap {
      LeaveReached(s, day);
    }
  }

  lemma SettleReach(s: Sys, outcome: Outcome)
    requires Kept(s) && ReachKept(s) && s.inFlight.Some?
    ensures ReachKept(Settle(s, s.inFlight.value, outcome))
  {
    hide RowKept, ReachedOn, LocalDay, SettledRow, SettledTrail;
    var n := Settle(s, s.inFlight.value, outcome);
    forall day ensures ReachedOn(n.rows, n.trails, day) <= s.cap {
      SettleReached(s, outcome, day);
    }
  }

  lemma CrashReach(s: Sys)
    requires Kept(s) && ReachKept(s)
    ensures ReachKept(Crashed(s))
  {
    hide RowKept, ReachedOn, LocalDay, Lost;
    var n := Crashed(s);
    forall day ensures ReachedOn(n.rows, n.trails, day) <= s.cap {
      CrashReached(s, day);
    }
  }

  lemma StepReach(s: Sys, e: Event)
    requires Kept(s) && ReachKept(s)
    ensures ReachKept(Next(s, e))
  {
    hide RowKept, Take, Settle, Leave, Crashed, CutShort, GetsTo, ReachedOn, LocalDay;
    var n := Next(s, e);
    match e
    case Enqueue(p, a) =>
      forall day ensures ReachedOn(n.rows, n.trails, day) == ReachedOn(s.rows, s.trails, day) {
        ReachedAppend(s.rows, s.trails, NewRow(p, a, s.now), day);
      }
    case Elapse(ms) =>
      DaysAscend(s.now, s.now + ms);
      if LocalDay(s.now) < LocalDay(s.now + ms) { NothingReachedLater(s, LocalDay(s.now + ms)); }
    case Poll =>
    case Advance => if s.isRunning && s.inFlight.None? && s.batch != [] { TakeReach(s); }
    case Depart => if s.inFlight.Some? { LeaveReach(s); }
    case Reply(outcome) => if s.inFlight.Some? { SettleReach(s, outcome); }
    case Crash => CrashReach(s);
    case CrashInSettle(outcome, cut) =>
      if InFlight(s) && GetsTo(s.inFlight.value, outcome, cut) { CutReach(s, outcome, cut); }
  }

  // ---- Anchor rituals first ----------------------------------------------

  predicate NoAnchorLeft(s: Sys) {
    forall k :: 0 <= k < |s.batch| ==> !s.batch[k].row.isAnchorRitual
  }

  /**
   * Anchors come before ordinary messages, a day with a held anchor is full,
   * and no ordinary proactive message of the pass went out on such a day.
   */
  ghost predicate AnchorKept(s: Sys) {
    && (forall j, k :: 0 <= j < k < |s.batch| && s.batch[k].row.isAnchorRitual ==> s.batch[j].row.isAnchorRitual)
    && (s.ordinarySentAt != [] || (s.inFlight.Some? && !s.inFlight.value.row.isAnchorRitual) ==> NoAnchorLeft(s))
    && (forall held <- s.heldAnchorAt :: held <= s.now
          && (LocalDay(held) == LocalDay(s.now) ==> DeliveredOn(s.rows, LocalDay(s.now)) >= s.cap))
    && (forall held <- s.heldAnchorAt, sent <- s.ordinarySentAt :: LocalDay(held) != LocalDay(sent))
  }

  lemma StepAnchor(s: Sys, e: Event)
    requires Kept(s) && CapKept(s) && AnchorKept(s)
    ensures AnchorKept(Next(s, e))
  {
    hide RowKept, Queued, Take, Settle, CutRow, CutTrail, GetsTo, DeliveredOn, LocalDay;
    match e
    case Depart =>
    case Enqueue(p, a) => DeliveredAppend(s.rows, NewRow(p, a, s.now), LocalDay(s.now));
    case Elapse(ms) =>
      forall held | held in s.heldAnchorAt && LocalDay(held) == LocalDay(s.now + ms)
        ensures LocalDay(s.now) == LocalDay(held)
      {
        DaysAscend(held, s.now);
        DaysAscend(s.now, s.now + ms);
      }
    case Poll => QueueIsSorted(s.rows, s.now);
    case Advance => if s.isRunning && s.inFlight.None? && s.batch != [] { TakeAnchor(s); }
    case Reply(outcome) => if s.inFlight.Some? && s.inFlight.value.id < |s.rows| { SettleAnchor(s, outcome); }
    case Crash =>
    case CrashInSettle(outcome, cut) =>
  }

  lemma DaysAscend(a: int, b: int)
    requires a <= b
    ensures LocalDay(a) <= LocalDay(b)
  {
  }

  lemma TakeAnchor(s: Sys)
    requires Kept(s) && AnchorKept(s) && s.inFlight.None? && s.batch != []
    ensures AnchorKept(Take(s))
  {
    hide RowKept, DeliveredOn, LocalDay, OverCap;
    CapCheckCounts(s);
    TakeCounts(s, LocalDay(s.now));
  }

  lemma SettleAnchor(s: Sys, outcome: Outcome)
    requires Kept(s) && CapKept(s) && AnchorKept(s) && s.inFlight.Some?
    ensures AnchorKept(Settle(s, s.inFlight.value, outcome))
  {
    hide RowKept, DeliveredOn, LocalDay, SettledRow, SettledTrail;
    SettleCounts(s, outcome, LocalDay(s.now));
  }

  // ---- Whole runs ---------------------------------------------------------

  ghost predicate Inv(s: Sys) {
    Kept(s) && CapKept(s) && ReachKept(s) && AnchorKept(s)
  }

  lemma InitInv(now: int, cap: nat)
    ensures Inv(Init(now, cap))
  {
  }

  lemma StepInv(s: Sys, e: Event)
    requires Inv(s)
    ensures Inv(Next(s, e))
  {
    hide Kept, CapKept, ReachKept, AnchorKept, Next;
    StepKept(s, e);
    StepCap(s, e);
    StepReach(s, e);
    StepAnchor(s, e);
  }

  lemma {:induction false} RunInv(s: Sys, events: seq<Event>)
    requires Inv(s)
    ensures Inv(Run(s, events))
  {
    hide Inv, Next;
    if events != [] {
      RunInv(s, events[..|events| - 1]);
      StepInv(Run(s, events[..|events| - 1]), events[|events| - 1]);
    }
  }

  /**
   * Over every run of enqueues, passes, rejected passes, send failures and
   * crashes, no local day ever shows more delivered proactive rows than the cap.
   */
  lemma DailyCapHolds(now: int, cap: nat, events: seq<Event>, day: int)
    ensures DeliveredOn(Run(Init(now, cap), events).rows, day) <= cap
  {
    hide DeliveredOn, Kept, ReachKept, AnchorKept, Run;
    InitInv(now, cap);
    RunInv(Init(now, cap), events);
    CapConstant(Init(now, cap), events);
  }

  lemma {:induction false} CapConstant(s: Sys, events: seq<Event>)
    ensures Run(s, events).cap == s.cap
  {
    if events != [] {
      CapConstant(s, events[..|events| - 1]);
    }
  }
}
