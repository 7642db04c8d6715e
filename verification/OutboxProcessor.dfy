/**
 * The outbox as written: the repository over its table and the processor that
 * awaits between steps. Each run of the processor is shown to be a run of the
 * state machine, so every promise about runs holds of it.
 */
module OutboxProcessing {
  import opened Common
  import opened Counting
  import opened ZonedTime
  import opened OutboxTable
  import opened OutboxMachine
  import opened OutboxSafety
  import opened OutboxTheorems

  class OutboxRepository {
    var rows: seq<Row>

    constructor ()
      ensures rows == []
    {
      rows := [];
    }

    method Insert(isProactive: bool, isAnchorRitual: bool, now: int) returns (id: nat)
      modifies this
      ensures id == |old(rows)| && rows == old(rows) + [NewRow(isProactive, isAnchorRitual, now)]
    {
      id := |rows|;
      rows := rows + [Row(isProactive, isAnchorRitual, Pending, 0, None, None, now)];
    }

    /** Only a row that is still pending changes, so of two claimants at most one wins. */
    method ClaimForSending(id: nat) returns (claimed: bool)
      modifies this
      ensures claimed <==> id < |old(rows)| && old(rows)[id].status == Pending
      ensures rows == if claimed then old(rows)[id := old(rows)[id].(status := Sending)] else old(rows)
    {
      claimed := id < |rows| && rows[id].status == Pending;
      if claimed {
        rows := rows[id := rows[id].(status := Sending)];
      }
    }

    method MarkDelivered(id: nat, deliveredAt: int)
      requires id < |rows|
      modifies this
      ensures rows == old(rows)[id := old(rows)[id].(status := Delivered, deliveredAt := Some(deliveredAt))]
    {
      rows := rows[id := rows[id].(status := Delivered, deliveredAt := Some(deliveredAt))];
    }

    method MarkFailed(id: nat)
      requires id < |rows|
      modifies this
      ensures rows == old(rows)[id := old(rows)[id].(status := Failed)]
    {
      rows := rows[id := rows[id].(status := Failed)];
    }

    method IncrementAttempts(id: nat)
      requires id < |rows|
      modifies this
      ensures rows == old(rows)[id := old(rows)[id].(attempts := old(rows)[id].attempts + 1)]
    {
      rows := rows[id := rows[id].(attempts := rows[id].attempts + 1)];
    }

    method MarkPendingForRetry(id: nat, retryAfter: int)
      requires id < |rows|
      modifies this
      ensures rows == old(rows)[id := old(rows)[id].(status := Pending, retryAfter := Some(retryAfter))]
    {
      rows := rows[id := rows[id].(status := Pending, retryAfter := Some(retryAfter))];
    }
  }

  /**
   * What can happen while the processor awaits: other code enqueues, time passes,
   * another pass is refused, the text goes out.
   */
  predicate Outside(e: Event) {
    e.Enqueue? || e.Elapse? || e.Poll? || e.Depart?
  }

  /** Messages whose turn came, plus one for the end of the pass. */
  function TurnsIn(events: seq<Event>): nat {
    Count(events, (e: Event) => e.Advance?)
  }

  predicate Dies(e: Event) {
    e.Crash? || e.CrashInSettle?
  }

  /** Events without a crash in which exactly `turns` turns were taken. */
  predicate Turns(events: seq<Event>, turns: nat) {
    (forall e <- events :: !Dies(e)) && TurnsIn(events) == turns
  }

  /**
   * The statements after a failed send or a callback that threw, each as the event
   * that leaves the table as that statement does: a crash right after it, or the
   * whole settlement.
   */
  function FailureStatements(m: Message, outcome: Outcome): seq<Event> {
    [CrashInSettle(outcome, AfterCount),
     if RetriesExhausted(m.row.attempts + 1) then CrashInSettle(outcome, AfterFail) else Reply(outcome)]
  }

  /** All statements that settle a message. */
  function Statements(m: Message, outcome: Outcome): seq<Event> {
    (if outcome.Confirmed? then [CrashInSettle(outcome, AfterMark)] else [])
    + if outcome == Confirmed(false) then [] else FailureStatements(m, outcome)
  }

  /** The tables seen after each statement are those of a crash that falls there. */
  predicate EachIsACrashPoint(s: Sys, statements: seq<Event>, tables: seq<seq<Row>>) {
    |tables| == |statements| && forall k :: 0 <= k < |tables| ==> tables[k] == Next(s, statements[k]).rows
  }

  class OutboxProcessor {
    const repository: OutboxRepository
    const dailyProactiveCap: nat
    var clock: int
    var isRunning: bool
    ghost var sys: Sys

    /** The fields are the fields of a machine state that keeps the invariant. */
    ghost predicate Valid()
      reads this, repository
    {
      && Inv(sys) && sys.rows == repository.rows && sys.now == clock
      && sys.isRunning == isRunning && sys.cap == dailyProactiveCap
    }

    /** A process start on the table an earlier process left behind. */
    constructor (repository: OutboxRepository, dailyProactiveCap: nat, clock: int, ghost before: Sys)
      requires Inv(before) && before.rows == repository.rows && before.cap == dailyProactiveCap && before.now == clock
      ensures Valid() && this.repository == repository && this.dailyProactiveCap == dailyProactiveCap
      ensures !isRunning && sys == Next(before, Crash)
    {
      hide Inv, Next;
      this.repository := repository;
      this.dailyProactiveCap := dailyProactiveCap;
      this.clock := clock;
      isRunning := false;
      sys := Next(before, Crash);
      new;
      StepInv(before, Crash);
      CrashKeepsTable(before);
    }

    ghost method Record(e: Event)
      requires Inv(sys)
      modifies `sys
      ensures sys == Next(old(sys), e) == Run(old(sys), [e]) && Inv(sys)
    {
      hide Inv, Next;
      RunOne(sys, e);
      StepInv(sys, e);
      sys := Next(sys, e);
    }

    /** An await: any number of outside events, with the pass in progress untouched. */
    method Await() returns (ghost events: seq<Event>)
      requires Valid() && isRunning
      modifies `clock, `sys, repository
      ensures Valid() && sys == Run(old(sys), events) && Turns(events, 0)
      ensures forall e <- events :: Outside(e) && !e.Reply?
      ensures sys.batch == old(sys.batch) && sys.inFlight == old(sys.inFlight)
    {
      hide Inv, Run, TurnsIn;
      events := [];
      NoTurnsOutside(events);
      RunNone(sys);
      var n: nat := *;
      while n > 0
        invariant Valid() && sys == Run(old(sys), events)
        invariant forall e <- events :: Outside(e)
        invariant sys.batch == old(sys.batch) && sys.inFlight == old(sys.inFlight)
      {
        ghost var e := AwaitOne();
        RunExtends(old(sys), events, e);
        events := events + [e];
        n := n - 1;
      }
      NoTurnsOutside(events);
    }

    method AwaitOne() returns (ghost e: Event)
      requires Valid() && isRunning
      modifies `clock, `sys, repository
      ensures Valid() && sys == Next(old(sys), e) && Outside(e)
      ensures sys.batch == old(sys.batch) && sys.inFlight == old(sys.inFlight)
    {
      hide Inv, Run;
      var kind: nat := *;
      if kind == 0 {
        var isProactive: bool, isAnchorRitual: bool := *, *;
        e := Enqueue(isProactive, isAnchorRitual);
        var _ := repository.Insert(isProactive, isAnchorRitual, clock);
      } else if kind == 1 {
        var ms: nat := *;
        e := Elapse(ms);
        clock := clock + ms;
      } else if kind == 2 {
        e := Poll;
      } else {
        e := Depart;
      }
      Record(e);
    }

    /**
     * One pass. Refused while another is running; otherwise every message
     * ready at the start gets its turn, in queue order, and the flag is
     * released at the end.
     */
    method ProcessPending() returns (ghost events: seq<Event>)
      requires Valid()
      modifies this, repository
      ensures Valid() && sys == Run(old(sys), events)
      ensures old(isRunning) ==> events == [Poll] && repository.rows == old(repository.rows) && isRunning
      ensures !old(isRunning) ==>
        !isRunning && Turns(events, |FindPending(old(repository.rows), old(clock))| + 1)
    {
      hide Inv, Run, TurnsIn, FindPending;
      IdleHoldsNothing(sys);
      Record(Poll);
      events := [Poll];
      if isRunning {
        return;
      }
      isRunning := true;
      var pending := FindPending(repository.rows, clock);
      NoTurnsOutside(events);
      for i := 0 to |pending|
        invariant Valid() && isRunning && sys.inFlight.None? && sys.batch == pending[i..]
        invariant sys == Run(old(sys), events) && Turns(events, i)
      {
        ghost var turn := ProcessOne(pending[i]);
        RunConcat(old(sys), events, turn);
        TurnsConcat(events, turn);
        events := events + turn;
      }
      RunExtends(old(sys), events, Advance);
      OneTurn();
      TurnsConcat(events, [Advance]);
      events := events + [Advance];
      Record(Advance);
      isRunning := false;
    }

    /**
     * The turn of one message: held back when it is proactive and its day is full,
     * else claimed, awaited and settled, unless another claim of its row won.
     */
    method ProcessOne(message: Message) returns (ghost events: seq<Event>)
      requires Valid() && isRunning && sys.inFlight.None? && sys.batch != [] && message == sys.batch[0]
      modifies `clock, `sys, repository
      ensures Valid() && sys.inFlight.None? && sys.batch == old(sys.batch)[1..]
      ensures sys == Run(old(sys), events) && Turns(events, 1) && events != [] && events[0] == Advance
      ensures (exists e <- events :: e.Reply?)
         <==> && !HeldBack(old(repository.rows), old(clock), dailyProactiveCap, message)
              && message.id < |old(repository.rows)| && old(repository.rows)[message.id].status == Pending
    {
      hide Inv, Run, TurnsIn, StartOfToday, CountProactiveSentSince, HeldBack;
      HeadInTable(sys);
      HeldByTable(sys, message);
      events := [Advance];
      OneTurn();
      if message.row.isProactive {
        var sentToday := CountProactiveSentSince(repository.rows, StartOfToday(clock));
        if ProactiveCapReached(sentToday, dailyProactiveCap) {
          Record(Advance);
          if message.row.isAnchorRitual {
            ghost var alerted := Await();   // the alert that an anchor ritual was held back
            RunConcat(old(sys), events, alerted);
            TurnsConcat(events, alerted);
            events := events + alerted;
          }
          return;
        }
      }
      var claimed := repository.ClaimForSending(message.id);
      Record(Advance);
      if !claimed {
        return;
      }
      ghost var waited, _, settled, _ := SendAndSettle(message);
      RunConcat(old(sys), events, waited);
      TurnsConcat(events, waited);
      events := events + waited;
      RunConcat(old(sys), events, settled);
      TurnsConcat(events, settled);
      assert settled[0] in events + settled;
      events := events + settled;
    }

    /**
     * The `try` and `catch` around one send. Each table the settlement passes
     * through is the one a crash at that point leaves.
     */
    method SendAndSettle(message: Message)
      returns (ghost waited: seq<Event>, ghost outcome: Outcome, ghost settled: seq<Event>, ghost tables: seq<seq<Row>>)
      requires Valid() && isRunning && sys.inFlight == Some(message)
      modifies `clock, `sys, repository
      ensures Valid() && sys.inFlight.None? && sys.batch == old(sys.batch)
      ensures sys == Run(Run(old(sys), waited), settled) && Turns(waited, 0) && Turns(settled, 0)
      ensures settled != [] && settled[0] == Reply(outcome)
      ensures EachIsACrashPoint(Run(old(sys), waited), Statements(message, outcome), tables)
    {
      hide Inv, Run, TurnsIn, SettledRow, CutRow, Next;
      waited := Await();         // delay, presence and send
      var ended: Outcome := *;
      outcome := ended;
      FlightInTable(sys);
      ghost var before := sys;
      tables := [];
      if ended.Confirmed? {
        repository.MarkDelivered(message.id, clock);
        CutLeaves(before, ended, AfterMark);
        MarkedRow(before.rows[message.id], ended, clock);
        tables := [repository.rows];
      }
      if ended == Confirmed(false) {
        settled := [Reply(ended)];
        SettledAsConfirmed(sys.rows[message.id], message, clock);
        NoTurn(Reply(ended));
        ReplySettles(sys, ended);
        Record(Reply(ended));
      } else {
        ghost var marked := tables;
        settled, tables := HandleSendFailure(message, ended);
        tables := marked + tables;
      }
    }

    /** After a failed send, or a callback that threw once the row was delivered. */
    method HandleSendFailure(message: Message, ghost outcome: Outcome)
      returns (ghost events: seq<Event>, ghost tables: seq<seq<Row>>)
      requires Inv(sys) && isRunning && sys.isRunning && sys.inFlight == Some(message) && outcome != Confirmed(false)
      requires sys.now == clock && sys.cap == dailyProactiveCap && message.id < |sys.rows| == |sys.trails|
      requires repository.rows == sys.rows[message.id :=
                 if outcome.Confirmed? then DeliveredRow(sys.rows[message.id], clock) else sys.rows[message.id]]
      modifies `clock, `sys, repository
      ensures Valid() && sys.inFlight.None? && sys.batch == old(sys.batch)
      ensures sys == Run(old(sys), events) && Turns(events, 0) && events != [] && events[0] == Reply(outcome)
      ensures EachIsACrashPoint(old(sys), FailureStatements(message, outcome), tables)
    {
      hide Inv, Run, TurnsIn, NextRetryDelayMs, Next;
      repository.IncrementAttempts(message.id);
      CutLeaves(sys, outcome, AfterCount);
      tables := [repository.rows];
      var attempts := message.row.attempts + 1;
      if RetriesExhausted(attempts) {
        repository.MarkFailed(message.id);
        CutLeaves(sys, outcome, AfterFail);
      } else {
        var retryAfter := clock + NextRetryDelayMs(attempts);
        repository.MarkPendingForRetry(message.id, retryAfter);
      }
      assert repository.rows == sys.rows[message.id := SettledRow(sys.rows[message.id], message, outcome, clock)];
      tables := tables + [repository.rows];
      NoTurn(Reply(outcome));
      ReplySettles(sys, outcome);
      events := [Reply(outcome)];
      Record(Reply(outcome));
      if RetriesExhausted(attempts) {
        ghost var alerted := Await();   // the alert that the retries are used up
        RunConcat(old(sys), events, alerted);
        TurnsConcat(events, alerted);
        events := events + alerted;
      }
    }
  }

  /** A process start keeps the table, the time and the cap, and no pass is running. */
  lemma CrashKeepsTable(s: Sys)
    ensures var n := Next(s, Crash);
      n.rows == s.rows && n.now == s.now && n.cap == s.cap && !n.isRunning
  {
    hide Lost;
  }

  /** The table a crash between two statements of a settlement leaves. */
  lemma CutLeaves(s: Sys, outcome: Outcome, cut: Cut)
    requires InFlight(s) && GetsTo(s.inFlight.value, outcome, cut)
    ensures var m := s.inFlight.value;
      Next(s, CrashInSettle(outcome, cut)).rows == s.rows[m.id := CutRow(s.rows[m.id], outcome, cut, s.now)]
  {
    hide CutRow, CutTrail;
  }

  lemma MarkedRow(r: Row, outcome: Outcome, now: int)
    requires outcome.Confirmed?
    ensures CutRow(r, outcome, AfterMark, now) == r.(status := Delivered, deliveredAt := Some(now))
  {
  }

  lemma SettledAsConfirmed(r: Row, m: Message, now: int)
    ensures SettledRow(r, m, Confirmed(false), now) == r.(status := Delivered, deliveredAt := Some(now))
  {
  }

  /** What settling does to everything but the trails. */
  lemma ReplySettles(s: Sys, outcome: Outcome)
    requires s.inFlight.Some? && s.inFlight.value.id < |s.rows| == |s.trails|
    ensures var m := s.inFlight.value;
      var n := Next(s, Reply(outcome));
      && n.rows == s.rows[m.id := SettledRow(s.rows[m.id], m, outcome, s.now)]
      && n.now == s.now && n.cap == s.cap && n.isRunning == s.isRunning && n.batch == s.batch && n.inFlight.None?
  {
    hide SettledRow, SettledTrail;
  }

  lemma HeadInTable(s: Sys)
    requires Inv(s) && s.batch != []
    ensures s.batch[0].id < |s.rows| == |s.trails|
  {
    assert Queued(s.rows, s.now, s.batch[0]);
  }

  /** The processor's own check of the cap, on the table it reads. */
  lemma HeldByTable(s: Sys, m: Message)
    requires Inv(s)
    ensures HeldBack(s.rows, s.now, s.cap, m) <==>
      m.row.isProactive && ProactiveCapReached(CountProactiveSentSince(s.rows, StartOfToday(s.now)), s.cap)
  {
    hide StartOfToday, CountProactiveSentSince, DeliveredOn, DeliveredIds, CapKept, ReachKept, AnchorKept;
    CapCheckCounts(s);
    DeliveredIsSize(s.rows, LocalDay(s.now));
  }

  lemma FlightInTable(s: Sys)
    requires Inv(s) && s.inFlight.Some?
    ensures s.inFlight.value.id < |s.rows| == |s.trails|
  {
  }

  lemma IdleHoldsNothing(s: Sys)
    requires Inv(s)
    ensures !s.isRunning ==> s.inFlight == None
  {
  }

  lemma RunNone(s: Sys)
    ensures Run(s, []) == s
  {
  }

  lemma {:induction false} TurnsConcat(a: seq<Event>, b: seq<Event>)
    ensures TurnsIn(a + b) == TurnsIn(a) + TurnsIn(b)
  {
    if b == [] {
      assert a + b == a;
    } else {
      assert (a + b)[..|a + b| - 1] == a + b[..|b| - 1];
      TurnsConcat(a, b[..|b| - 1]);
    }
  }

  lemma NoTurnsOutside(events: seq<Event>)
    requires forall e <- events :: Outside(e)
    ensures Turns(events, 0)
  {
    forall i | 0 <= i < |events| ensures !events[i].Advance? && !Dies(events[i]) {
      assert events[i] in events;
    }
    CountNone(events, (e: Event) => e.Advance?);
  }

  lemma NoTurn(e: Event)
    requires !e.Advance?
    ensures TurnsIn([e]) == 0
  {
    CountNone([e], (e: Event) => e.Advance?);
  }

  lemma OneTurn()
    ensures Turns([Advance], 1)
  {
    assert [Advance][..0] == [];
  }
}
