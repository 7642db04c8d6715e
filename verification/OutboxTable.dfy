/** Rows of `outbox_messages`, the queries over them, and the retry policy. */
module OutboxTable {
  import opened Common
  import opened Counting
  import opened ZonedTime

  datatype Status = Pending | Sending | Delivered | Failed

  /** A row; its id is its position in the table, since rows are never deleted. */
  datatype Row = Row(
    isProactive: bool, isAnchorRitual: bool, status: Status, attempts: nat,
    deliveredAt: Option<int>, retryAfter: Option<int>, createdAt: int)

  /** A row as the pass read it, before any of its own updates. */
  datatype Message = Message(id: nat, row: Row)

  const BASE_DELAY_MS := 60_000
  const MAX_DELAY_MS := 3_600_000
  const MAX_ATTEMPTS := 5

  function Pow2(n: nat): nat {
    if n == 0 then 1 else 2 * Pow2(n - 1)
  }

  function NextRetryDelayMs(attempts: nat): nat {
    var delay := BASE_DELAY_MS * Pow2(attempts);
    if delay <= MAX_DELAY_MS then delay else MAX_DELAY_MS
  }

  predicate RetriesExhausted(attempts: nat) {
    attempts >= MAX_ATTEMPTS
  }

  /** The backoff doubles from two minutes and stays at one hour from the sixth failure on. */
  lemma {:induction false} BackoffDoubles(attempts: nat)
    ensures attempts == 0 ==> NextRetryDelayMs(attempts) == 60_000
    ensures 1 <= attempts <= 5 ==> NextRetryDelayMs(attempts) == 2 * NextRetryDelayMs(attempts - 1)
    ensures attempts >= 6 ==> NextRetryDelayMs(attempts) == 3_600_000
  {
    assert Pow2(1) == 2 && Pow2(2) == 4 && Pow2(3) == 8 && Pow2(4) == 16 && Pow2(5) == 32 && Pow2(6) == 64;
    if attempts > 6 {
      BackoffDoubles(attempts - 1);
    }
  }

  function NewRow(isProactive: bool, isAnchorRitual: bool, now: int): Row {
    Row(isProactive, isAnchorRitual, Pending, 0, None, None, now)
  }

  /** Not waiting for a retry. */
  predicate Ready(r: Row, now: int) {
    r.retryAfter.Some? ==> r.retryAfter.value <= now
  }

  /** Ready pending rows among the first `n`, of one anchor class, in id order. */
  function PendingOfClass(rows: seq<Row>, now: int, anchor: bool, n: nat): seq<Message>
    requires n <= |rows|
  {
    if n == 0 then []
    else
      var r := rows[n - 1];
      PendingOfClass(rows, now, anchor, n - 1)
      + if r.status == Pending && Ready(r, now) && r.isAnchorRitual == anchor then [Message(n - 1, r)] else []
  }

  /** `ORDER BY is_anchor_ritual DESC, id ASC`. */
  function FindPending(rows: seq<Row>, now: int): seq<Message> {
    PendingOfClass(rows, now, true, |rows|) + PendingOfClass(rows, now, false, |rows|)
  }

  predicate Precedes(a: Message, b: Message) {
    if a.row.isAnchorRitual == b.row.isAnchorRitual then a.id < b.id else a.row.isAnchorRitual
  }

  predicate Queued(rows: seq<Row>, now: int, m: Message) {
    m.id < |rows| && m.row == rows[m.id] && m.row.status == Pending && Ready(m.row, now)
  }

  lemma {:induction false} ClassMembers(rows: seq<Row>, now: int, anchor: bool, n: nat)
    requires n <= |rows|
    ensures forall m :: m in PendingOfClass(rows, now, anchor, n)
              <==> m.id < n && Queued(rows, now, m) && m.row.isAnchorRitual == anchor
  {
    if n > 0 {
      hide Queued, PendingOfClass;
      ClassMembers(rows, now, anchor, n - 1);
      ClassStep(rows, now, anchor, n);
      forall m ensures Queued(rows, now, m) ==> m.id < |rows| && m == Message(m.id, rows[m.id]) {
        QueuedIsItsRow(rows, now, m);
      }
    }
  }

  lemma {:induction false} ClassAscends(rows: seq<Row>, now: int, anchor: bool, n: nat)
    requires n <= |rows|
    ensures var found := PendingOfClass(rows, now, anchor, n);
      |found| <= n && forall i, j :: 0 <= i < j < |found| ==> found[i].id < found[j].id
  {
    if n > 0 {
      hide Queued;
      ClassAscends(rows, now, anchor, n - 1);
      ClassMembers(rows, now, anchor, n - 1);
      ClassStep(rows, now, anchor, n);
      var before := PendingOfClass(rows, now, anchor, n - 1);
      forall i | 0 <= i < |before| ensures before[i].id < n - 1 {
        assert before[i] in before;
      }
    }
  }

  lemma QueuedIsItsRow(rows: seq<Row>, now: int, m: Message)
    ensures Queued(rows, now, m) ==> m.id < |rows| && m == Message(m.id, rows[m.id])
  {
  }

  lemma ClassStep(rows: seq<Row>, now: int, anchor: bool, n: nat)
    requires 0 < n <= |rows|
    ensures var last := Message(n - 1, rows[n - 1]);
      PendingOfClass(rows, now, anchor, n)
      == PendingOfClass(rows, now, anchor, n - 1)
         + if Queued(rows, now, last) && last.row.isAnchorRitual == anchor then [last] else []
  {
  }

  lemma QueueIsSorted(rows: seq<Row>, now: int)
    ensures var found := FindPending(rows, now);
            && (forall m :: m in found <==> Queued(rows, now, m))
            && (forall i, j :: 0 <= i < j < |found| ==> Precedes(found[i], found[j]) && found[i].id != found[j].id)
  {
    hide PendingOfClass, Ready;
    ClassMembers(rows, now, true, |rows|);
    ClassMembers(rows, now, false, |rows|);
    ClassAscends(rows, now, true, |rows|);
    ClassAscends(rows, now, false, |rows|);
    var a, b := PendingOfClass(rows, now, true, |rows|), PendingOfClass(rows, now, false, |rows|);
    forall i, j | 0 <= i < j < |a + b| ensures Precedes((a + b)[i], (a + b)[j]) && (a + b)[i].id != (a + b)[j].id {
      var x, y := (a + b)[i], (a + b)[j];
      assert if i < |a| then x == a[i] && x in a else x == b[i - |a|] && x in b;
      assert if j < |a| then y == a[j] && y in a else y == b[j - |a|] && y in b;
    }
  }

  /**
   * A pass takes every pending row whose retry time, if it has one, has come, each
   * once, anchor rituals first and each class in id order.
   */
  lemma QueueOrder(rows: seq<Row>, now: int)
    ensures var found := FindPending(rows, now);
      && (forall m :: m in found <==>
            && m.id < |rows| && m.row == rows[m.id] && m.row.status == Pending
            && (m.row.retryAfter.None? || m.row.retryAfter.value <= now))
      && (forall i, j :: 0 <= i < j < |found| ==>
            && (found[j].row.isAnchorRitual ==> found[i].row.isAnchorRitual)
            && (found[i].row.isAnchorRitual == found[j].row.isAnchorRitual ==> found[i].id < found[j].id))
  {
    hide FindPending;
    QueueIsSorted(rows, now);
  }

  // ---- Counts for the daily caps -----------------------------------------

  predicate SentSince(r: Row, since: int) {
    r.isProactive && r.status == Delivered && r.deliveredAt.Some? && r.deliveredAt.value >= since
  }

  function CountProactiveSentSince(rows: seq<Row>, since: int): nat {
    Count(rows, r => SentSince(r, since))
  }

  predicate CommittedSince(r: Row, since: int) {
    r.isProactive && r.status != Failed && r.createdAt >= since
  }

  function CountProactiveCommittedSince(rows: seq<Row>, since: int): nat {
    Count(rows, r => CommittedSince(r, since))
  }

  predicate ProactiveCapReached(sentToday: nat, dailyCap: nat) {
    sentToday >= dailyCap
  }

  /** First instant of the local day of `now`, as the processor computes it. */
  function StartOfToday(now: int): int {
    ZonedTimeToUtc(StartOfZonedDay(now))
  }

  predicate SentOn(r: Row, day: int) {
    r.isProactive && r.status == Delivered && r.deliveredAt.Some? && LocalDay(r.deliveredAt.value) == day
  }

  /** Proactive rows delivered on a local day. */
  function DeliveredOn(rows: seq<Row>, day: int): nat {
    Count(rows, r => SentOn(r, day))
  }

  function DeliveredIds(rows: seq<Row>, day: int): set<nat> {
    set i: nat | i < |rows| && rows[i].isProactive && rows[i].status == Delivered
                 && rows[i].deliveredAt.Some? && LocalDay(rows[i].deliveredAt.value) == day
  }

  lemma DeliveredIsSize(rows: seq<Row>, day: int)
    ensures DeliveredOn(rows, day) == |DeliveredIds(rows, day)|
  {
    hide LocalDay;
    CountIsSize(rows, r => SentOn(r, day), DeliveredIds(rows, day));
  }

  /** Proactive rows not failed that were enqueued since the local midnight before `now`. */
  function CommittedIds(rows: seq<Row>, now: int): set<nat> {
    set i: nat | i < |rows| && rows[i].isProactive && rows[i].status != Failed
                 && rows[i].createdAt >= DayStart(LocalDay(now))
  }

  /** The count for the budget of nudges: every proactive row of the day that has not failed, sent or not. */
  lemma CommittedIsSize(rows: seq<Row>, now: int)
    ensures CountProactiveCommittedSince(rows, StartOfToday(now)) == |CommittedIds(rows, now)|
  {
    hide ZonedTimeToUtc, StartOfZonedDay, LocalDay;
    StartOfDayBounds(now);
    var since := StartOfToday(now);
    CountIsSize(rows, r => CommittedSince(r, since), CommittedIds(rows, now));
  }

  /** With no delivery in the future, the processor's count is the count of the current local day. */
  lemma SentTodayCounts(rows: seq<Row>, now: int)
    requires forall i :: 0 <= i < |rows| && rows[i].deliveredAt.Some? ==> rows[i].deliveredAt.value <= now
    ensures CountProactiveSentSince(rows, StartOfToday(now)) == DeliveredOn(rows, LocalDay(now))
  {
    hide ZonedTimeToUtc, StartOfZonedDay;
    StartOfDayBounds(now);
    var since, day := StartOfToday(now), LocalDay(now);
    CountAgree(rows, r => SentSince(r, since), r => SentOn(r, day));
  }
}
