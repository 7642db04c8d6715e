/** The promises of the scheduler about the store and recurring jobs, over every run. */
module SchedulerTheorems {
  import opened Recurrence
  import opened TaskTables
  import opened ChainInvariants
  import opened StoreChanges
  import opened TornCommands
  import opened SchedulerMachine
  import opened SchedulerSafety

  // ---- The store ----------------------------------------------------------

  /** Whenever the process died inside a drop or a move, it was at a harmless point. */
  predicate HarmlessTears(w: World, steps: seq<Step>) {
    steps == [] ||
    var before, last := steps[..|steps| - 1], steps[|steps| - 1];
    HarmlessTears(w, before) && (last.CrashIn? ==> Harmless(Run(w, before).db, last.tear))
  }

  /** The store is consistent at every point of a run. */
  predicate AlwaysConsistent(w: World, steps: seq<Step>) {
    StoreInv(Run(w, steps).db) && (steps == [] || AlwaysConsistent(w, steps[..|steps| - 1]))
  }

  lemma {:induction false} ConsistentIffFrom(w: World, steps: seq<Step>)
    requires Kept(w) && StoreInv(w.db)
    ensures AlwaysConsistent(w, steps) <==> HarmlessTears(w, steps)
  {
    hide StoreInv, Kept, Next, Harmless;
    if steps != [] {
      var before := steps[..|steps| - 1];
      ConsistentIffFrom(w, before);
      RunKept(w, before);
      if AlwaysConsistent(w, before) {
        StepStore(Run(w, before), steps[|steps| - 1]);
      }
    }
  }

  /**
   * Over every run of commands, ticks (overlapping ones included), crashes and
   * boots: each item has at most one active event, it starts when the item is
   * due, and every pending chain reminder belongs to an active event, all along
   * the run if and only if no crash inside a command fell at a harmful point.
   */
  lemma StoreConsistentIff(now: int, handlers: set<string>, steps: seq<Step>)
    ensures AlwaysConsistent(Init(now, handlers), steps) <==> HarmlessTears(Init(now, handlers), steps)
    ensures HarmlessTears(Init(now, handlers), steps) ==> StoreInv(Run(Init(now, handlers), steps).db)
  {
    hide StoreInv, Kept, Run;
    InitKept(now, handlers);
    ConsistentIffFrom(Init(now, handlers), steps);
  }

  // ---- Recurrence is never lost ------------------------------------------

  predicate NoCrash(steps: seq<Step>) {
    forall s <- steps :: !s.Crash? && !s.CrashIn? && !s.CrashInEnd?
  }

  lemma {:induction false} OrphansOnlyFromCrashes(w: World, steps: seq<Step>)
    requires NoCrash(steps)
    ensures Run(w, steps).orphans == w.orphans
  {
    hide Apply, NextOccurrence, SelectDue, AnyPending, IsPendingList, Torn;
    if steps != [] {
      OrphansOnlyFromCrashes(w, steps[..|steps| - 1]);
    }
  }

  /** A recurring row is always pending or in a running handler, unless a crash caught it in its handler. */
  lemma RecurrenceNeverLost(now: int, handlers: set<string>, steps: seq<Step>, j: nat)
    requires j < |Run(Init(now, handlers), steps).db.jobs|
    requires Run(Init(now, handlers), steps).db.jobs[j].recurrence.Some?
    ensures var w := Run(Init(now, handlers), steps);
      && (w.db.jobs[j].status == JobPending
          || (w.db.jobs[j].status == JobRunning && (j in Current(w) || j in w.orphans)))
      && (NoCrash(steps) && w.ticks == map[] ==> w.db.jobs[j].status == JobPending)
  {
    hide StoreInv, Run, TicksKept, OneLive;
    InitKept(now, handlers);
    RunKept(Init(now, handlers), steps);
    var w := Run(Init(now, handlers), steps);
    assert RowKept(w.db.jobs[j]);
    if NoCrash(steps) {
      OrphansOnlyFromCrashes(Init(now, handlers), steps);
    }
  }

  function RunsOf(w: World, j: nat): nat {
    if j < |w.runs| then w.runs[j] else 0
  }

  /** Rows keep their kind and recurrence, and are never run fewer times. */
  lemma StepGrows(w: World, s: Step, j: nat)
    requires Kept(w) && j < |w.db.jobs|
    ensures var n := Next(w, s);
      && j < |n.db.jobs| && n.db.jobs[j].kind == w.db.jobs[j].kind && n.db.jobs[j].recurrence == w.db.jobs[j].recurrence
      && RunsOf(w, j) <= RunsOf(n, j) && n.handlers == w.handlers
  {
    hide RowKept, OneLive, Current, NextOccurrence, SelectDue, IsPendingList, Apply, Torn, AnyPending;
    match s
    case Command(c, env) => CommandEvolves(w.db, c, env); assert JobEvolves(w.db.jobs[j], Apply(w.db, c, env).jobs[j]);
    case CrashIn(tear, env) =>
      TearEvolves(w.db, tear, env);
      assert JobEvolves(w.db.jobs[j], Torn(w.db, tear, env).jobs[j]);
    case _ =>
  }

  lemma {:induction false} RunGrows(w: World, steps: seq<Step>, j: nat)
    requires Kept(w) && j < |w.db.jobs|
    ensures var n := Run(w, steps);
      && j < |n.db.jobs| && n.db.jobs[j].kind == w.db.jobs[j].kind && n.db.jobs[j].recurrence == w.db.jobs[j].recurrence
      && RunsOf(w, j) <= RunsOf(n, j) && n.handlers == w.handlers
  {
    hide Kept, Next;
    if steps != [] {
      var before := steps[..|steps| - 1];
      RunGrows(w, before, j);
      RunKept(w, before);
      StepGrows(Run(w, before), steps[|steps| - 1], j);
    }
  }

  lemma StepRests(w: World, s: Step, j: nat)
    requires Kept(w) && j < |w.db.jobs| && w.db.jobs[j].kind != REMINDER && j !in Current(w)
    requires RunsOf(Next(w, s), j) == RunsOf(w, j)
    ensures var n := Next(w, s); j < |n.db.jobs| && n.db.jobs[j] == w.db.jobs[j] && j !in Current(n)
  {
    hide RowKept, OneLive, NextOccurrence, SelectDue, IsPendingList, Apply, Torn, AnyPending;
    match s
    case Command(c, env) => CommandEvolves(w.db, c, env); assert JobEvolves(w.db.jobs[j], Apply(w.db, c, env).jobs[j]);
    case CrashIn(tear, env) =>
      TearEvolves(w.db, tear, env);
      assert JobEvolves(w.db.jobs[j], Torn(w.db, tear, env).jobs[j]);
    case _ =>
  }

  /** A recurring row that is in no handler stays as it is until it runs again. */
  lemma {:induction false} RestsUntilRun(w: World, steps: seq<Step>, j: nat)
    requires Kept(w) && j < |w.db.jobs| && w.db.jobs[j].kind != REMINDER && j !in Current(w)
    requires RunsOf(Run(w, steps), j) == RunsOf(w, j)
    ensures var n := Run(w, steps); j < |n.db.jobs| && n.db.jobs[j] == w.db.jobs[j] && j !in Current(n)
  {
    hide Kept, Next, Current;
    if steps != [] {
      var before := steps[..|steps| - 1];
      RunGrows(w, before, j);
      RunKept(w, before);
      StepGrows(Run(w, before), steps[|steps| - 1], j);
      RestsUntilRun(w, before, j);
      StepRests(Run(w, before), steps[|steps| - 1], j);
    }
  }

  /**
   * Over every run: when the handler of a recurring job ends, well or badly, the
   * row is pending again, in the future exactly when its interval is positive,
   * its tick goes on, and unless another tick has it in a handler the row stays
   * so, through commands, other jobs, crashes and boots, until it runs again.
   */
  lemma RescheduledAfterRun(now: int, handlers: set<string>, steps: seq<Step>, t: nat, ok: bool, more: seq<Step>)
    requires var w := Run(Init(now, handlers), steps);
      && t in w.ticks && w.ticks[t].current.Some? && w.ticks[t].current.value < |w.db.jobs|
      && w.db.jobs[w.ticks[t].current.value].recurrence.Some?
    ensures var w := Run(Init(now, handlers), steps);
      var id := w.ticks[t].current.value;
      var n := Next(w, JobEnd(t, ok));
      var rule := w.db.jobs[id].recurrence.value;
      && n.db.jobs[id].status == JobPending && t in n.ticks && n.ticks[t].todo == w.ticks[t].todo
      && (n.db.jobs[id].nextRunAt > w.now <==> (rule.Every? ==> rule.minutes > 0))
      && (id !in Current(n) && RunsOf(Run(n, more), id) == RunsOf(n, id) ==>
            id < |Run(n, more).db.jobs| && Run(n, more).db.jobs[id] == n.db.jobs[id])
  {
    hide NextOccurrence, RowKept, OneLive, Run, Current;
    InitKept(now, handlers);
    RunKept(Init(now, handlers), steps);
    var w := Run(Init(now, handlers), steps);
    var id := w.ticks[t].current.value;
    var n := Next(w, JobEnd(t, ok));
    assert RowKept(w.db.jobs[id]);
    StrictlyLaterIff(w.now, w.db.jobs[id].recurrence.value);
    StepKept(w, JobEnd(t, ok));
    RecurringIsNoReminder(w.db.jobs[id]);
    if id !in Current(n) && RunsOf(Run(n, more), id) == RunsOf(n, id) {
      RestsUntilRun(n, more, id);
    }
  }

  lemma RecurringIsNoReminder(job: Job)
    requires RowKept(job) && job.recurrence.Some?
    ensures job.kind != REMINDER
  {
  }

  // ---- One pending row per seeded type -----------------------------------

  /** At no point of any run are two rows of a seeded type pending. */
  lemma NeverTwoPending(now: int, handlers: set<string>, steps: seq<Step>, i: nat, j: nat)
    requires i < j < |Run(Init(now, handlers), steps).db.jobs|
    ensures var jobs := Run(Init(now, handlers), steps).db.jobs;
      jobs[i].kind == jobs[j].kind != REMINDER ==> !(jobs[i].status == JobPending && jobs[j].status == JobPending)
  {
    hide Run, TicksKept, RowKept, Current;
    InitKept(now, handlers);
    RunKept(Init(now, handlers), steps);
  }

  function PendingOf(jobs: seq<Job>, kind: string): set<nat> {
    set j | 0 <= j < |jobs| && jobs[j].kind == kind && jobs[j].status == JobPending
  }

  /** Right after its seed at boot, whatever crashes came before, a type has exactly one pending row. */
  lemma SeededExactlyOnce(w: World, kind: string, rule: RecurrenceRule, firstRunAt: int)
    requires Kept(w) && w.ticks == map[] && kind != REMINDER
    ensures |PendingOf(Next(w, Seed(kind, rule, firstRunAt)).db.jobs, kind)| == 1
  {
    hide RowKept, TicksKept, Current, OneLive;
    var n := Next(w, Seed(kind, rule, firstRunAt));
    StepKept(w, Seed(kind, rule, firstRunAt));
    if !AnyPending(w.db.jobs, kind) {
      assert n.db.jobs[|w.db.jobs|].kind == kind;
    }
    var j :| 0 <= j < |n.db.jobs| && n.db.jobs[j].kind == kind && n.db.jobs[j].status == JobPending;
    forall i | i in PendingOf(n.db.jobs, kind) ensures i == j {
      TwoPendingAreOne(n, i, j);
    }
    assert PendingOf(n.db.jobs, kind) == {j};
  }

  lemma TwoPendingAreOne(w: World, i: nat, j: nat)
    requires Kept(w) && i < |w.db.jobs| && j < |w.db.jobs| && w.db.jobs[i].kind == w.db.jobs[j].kind != REMINDER
    requires w.db.jobs[i].status == JobPending && w.db.jobs[j].status == JobPending
    ensures i == j
  {
    hide RowKept, TicksKept, Current;
    assert Live(w, i) && Live(w, j);
  }

  // ---- Aborted ticks ------------------------------------------------------

  /** Ticks start only when none is in progress. */
  predicate Serial(w: World, steps: seq<Step>) {
    steps == [] ||
    var before := steps[..|steps| - 1];
    Serial(w, before) && (steps[|steps| - 1].TickStart? ==> Run(w, before).ticks == map[])
  }

  /** The one tick in progress has only jobs to go that are still due, or were cancelled since it read them. */
  predicate DueHeld(w: World) {
    && (forall t <- w.ticks, u <- w.ticks :: t == u)
    && forall t <- w.ticks :: forall j <- w.ticks[t].todo :: StillDue(w, j)
  }

  predicate StillDue(w: World, j: nat) {
    j < |w.db.jobs| && (IsDue(w.db.jobs[j], w.now) || w.db.jobs[j].status == JobCancelled)
  }

  lemma EvolvingDue(w: World, db: Db)
    requires DueHeld(w) && JobsEvolve(w.db.jobs, db.jobs)
    ensures DueHeld(AfterCommand(w, db))
  {
    var n := AfterCommand(w, db);
    forall t <- n.ticks, j <- n.ticks[t].todo ensures StillDue(n, j) {
      assert StillDue(w, j);
      assert JobEvolves(w.db.jobs[j], n.db.jobs[j]);
    }
  }

  lemma StepDue(w: World, s: Step)
    requires Kept(w) && DueHeld(w) && (s.TickStart? ==> w.ticks == map[])
    ensures DueHeld(Next(w, s))
  {
    hide RowKept, OneLive, NextOccurrence, IsPendingList, Apply, Torn, AnyPending, Current, SelectDue, JobsEvolve;
    var n := Next(w, s);
    match s
    case Command(c, env) =>
      CommandEvolves(w.db, c, env);
      EvolvingDue(w, Apply(w.db, c, env));
    case TickStart(order) => if IsPendingList(w.db.jobs, order) { DueContents(w.db.jobs, w.now, order); }
    case JobStart(t) => if t in w.ticks && w.ticks[t].todo != [] { StartDue(w, t); }
    case JobEnd(t, ok) =>
      forall u <- n.ticks, j <- n.ticks[u].todo ensures StillDue(n, j) {
        assert j in w.ticks[u].todo && StillDue(w, j);
      }
    case Elapse(ms) =>
      forall u <- n.ticks, j <- n.ticks[u].todo ensures StillDue(n, j) {
        assert j in w.ticks[u].todo && StillDue(w, j);
      }
    case _ =>
  }

  lemma StartDue(w: World, t: nat)
    requires Kept(w) && DueHeld(w) && t in w.ticks && w.ticks[t].todo != []
    ensures DueHeld(Start(w, t))
  {
    hide RowKept, OneLive, Current;
    var n, todo := Start(w, t), w.ticks[t].todo;
    forall u <- n.ticks, j <- n.ticks[u].todo ensures StillDue(n, j) {
      var k :| 0 <= k < |todo| - 1 && todo[1..][k] == j;
      assert todo[k + 1] in todo && StillDue(w, j) && j != todo[0];
    }
  }

  lemma {:induction false} RunDue(w: World, steps: seq<Step>)
    requires Kept(w) && DueHeld(w) && Serial(w, steps)
    ensures DueHeld(Run(w, steps))
  {
    hide Kept, DueHeld, Next;
    if steps != [] {
      var before := steps[..|steps| - 1];
      RunDue(w, before);
      RunKept(w, before);
      StepDue(Run(w, before), steps[|steps| - 1]);
    }
  }

  /**
   * Over every run without overlapping ticks: a failing one-shot job ends its
   * tick, the jobs it had not reached are untouched and still due unless they
   * were cancelled meanwhile, and the next tick takes just those still due.
   */
  lemma AbortLeavesTheRest(now: int, handlers: set<string>, steps: seq<Step>, t: nat, order: seq<nat>)
    requires Serial(Init(now, handlers), steps)
    requires var w := Run(Init(now, handlers), steps);
      && t in w.ticks && w.ticks[t].current.Some? && w.ticks[t].current.value < |w.db.jobs|
      && w.db.jobs[w.ticks[t].current.value].recurrence.None?
    requires IsPendingList(Next(Run(Init(now, handlers), steps), JobEnd(t, false)).db.jobs, order)
    ensures var w := Run(Init(now, handlers), steps);
      var n := Next(w, JobEnd(t, false));
      var next := Next(n, TickStart(order));
      && n.ticks == map[] && n.runs == w.runs && n.nextTick in next.ticks
      && forall j <- w.ticks[t].todo ::
           && j < |n.db.jobs| && n.db.jobs[j] == w.db.jobs[j] && StillDue(n, j)
           && (j in next.ticks[n.nextTick].todo <==> n.db.jobs[j].status != JobCancelled)
  {
    hide RowKept, OneLive, Run, Current, SelectDue, IsPendingList, Serial;
    InitKept(now, handlers);
    RunKept(Init(now, handlers), steps);
    RunDue(Init(now, handlers), steps);
    var w := Run(Init(now, handlers), steps);
    var n := Next(w, JobEnd(t, false));
    DueContents(n.db.jobs, n.now, order);
    forall j <- w.ticks[t].todo ensures StillDue(w, j) && j != w.ticks[t].current.value {
    }
  }
}
