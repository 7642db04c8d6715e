/** A job runs only when its time has come, and what the end of a run leaves of its row. */
module DueStarts {
  import opened Common
  import opened Recurrence
  import opened TaskTables
  import opened StoreChanges
  import opened SchedulerMachine
  import opened SchedulerSafety
  import opened SchedulerTheorems

  /** The tick has the job to go, or in its handler. */
  predicate Holds(w: World, t: nat, j: nat) {
    t in w.ticks && (j in w.ticks[t].todo || w.ticks[t].current == Some(j))
  }

  predicate ReadsAsDue(w: World, j: nat) {
    && j < |w.db.jobs| && w.db.jobs[j].status == JobPending
    && w.db.jobs[j].deliveredAt.None? && w.db.jobs[j].nextRunAt <= w.now
  }

  lemma HoldStep(w: World, s: Step, t: nat, j: nat)
    requires Kept(w) && Holds(Next(w, s), t, j)
    ensures Holds(w, t, j) || (s.TickStart? && t == w.nextTick && ReadsAsDue(w, j))
  {
    hide RowKept, OneLive, Current, NextOccurrence, SelectDue, IsPendingList, Apply, Torn, AnyPending;
    match s
    case TickStart(order) => if IsPendingList(w.db.jobs, order) { DueContents(w.db.jobs, w.now, order); }
    case _ =>
  }

  /** The start of tick `t` was step `n` of the run, and it read the job as due. */
  predicate ReadBy(init: World, steps: seq<Step>, t: nat, j: nat, n: nat) {
    && n < |steps| && steps[n].TickStart? && Run(init, steps[..n]).nextTick == t
    && ReadsAsDue(Run(init, steps[..n]), j)
  }

  /** Whatever a tick holds it read as due when it started. */
  lemma {:induction false} HeldWasDue(now: int, handlers: set<string>, steps: seq<Step>, t: nat, j: nat)
    returns (n: nat)
    requires Holds(Run(Init(now, handlers), steps), t, j)
    ensures ReadBy(Init(now, handlers), steps, t, j, n)
  {
    hide Kept, Next, Holds, ReadsAsDue;
    var init, last := Init(now, handlers), |steps| - 1;
    if steps == [] {
      NothingHeld(now, handlers, t, j);
    } else {
      var w := Run(init, steps[..last]);
      InitKept(now, handlers);
      RunKept(init, steps[..last]);
      HoldStep(w, steps[last], t, j);
      if Holds(w, t, j) {
        n := HeldWasDue(now, handlers, steps[..last], t, j);
        assert steps[..last][..n] == steps[..n];
      } else {
        n := last;
      }
    }
  }

  lemma NothingHeld(now: int, handlers: set<string>, t: nat, j: nat)
    ensures !Holds(Init(now, handlers), t, j)
  {
  }

  lemma RunStep(w: World, s: Step, j: nat)
    requires Kept(w) && RunsOf(Next(w, s), j) > RunsOf(w, j)
    ensures s.JobStart? && Holds(w, s.tick, j) && RunsOf(Next(w, s), j) == RunsOf(w, j) + 1
    ensures w.ticks[s.tick].todo != [] && w.ticks[s.tick].todo[0] == j && w.db.jobs[j].kind in w.handlers
  {
    hide RowKept, OneLive, Current, NextOccurrence, SelectDue, IsPendingList, Apply, Torn, AnyPending;
  }

  /**
   * Over every run, a job's handler starts only from a tick that, when it started,
   * read the job pending, not delivered and with its time come.
   */
  lemma StartWasDue(now: int, handlers: set<string>, steps: seq<Step>, s: Step, j: nat) returns (n: nat)
    requires RunsOf(Next(Run(Init(now, handlers), steps), s), j) > RunsOf(Run(Init(now, handlers), steps), j)
    ensures s.JobStart? && ReadBy(Init(now, handlers), steps, s.tick, j, n)
  {
    hide Kept, Next, Run, ReadBy;
    InitKept(now, handlers);
    RunKept(Init(now, handlers), steps);
    RunStep(Run(Init(now, handlers), steps), s, j);
    n := HeldWasDue(now, handlers, steps, s.tick, j);
  }

  // ---- One-shot jobs never run early --------------------------------------

  /** A one-shot job that ran, or that a tick holds, has its time come; its time never changes. */
  ghost predicate NotEarly(w: World, j: nat) {
    j < |w.db.jobs| && w.db.jobs[j].recurrence.None? ==>
      ((RunsOf(w, j) > 0 || exists t :: Holds(w, t, j)) ==> w.db.jobs[j].nextRunAt <= w.now)
  }

  lemma DateStays(w: World, s: Step, j: nat)
    requires Kept(w) && j < |w.db.jobs| && w.db.jobs[j].recurrence.None?
    ensures var n := Next(w, s);
      j < |n.db.jobs| && n.db.jobs[j].nextRunAt == w.db.jobs[j].nextRunAt && w.now <= n.now
  {
    hide RowKept, OneLive, Current, NextOccurrence, SelectDue, IsPendingList, Apply, Torn, AnyPending;
    match s
    case Command(c, env) => CommandEvolves(w.db, c, env); assert JobEvolves(w.db.jobs[j], Apply(w.db, c, env).jobs[j]);
    case CrashIn(tear, env) =>
      TearEvolves(w.db, tear, env);
      assert JobEvolves(w.db.jobs[j], Torn(w.db, tear, env).jobs[j]);
    case _ =>
  }

  lemma NewRowRests(w: World, s: Step, j: nat)
    requires Kept(w) && j >= |w.db.jobs|
    ensures RunsOf(Next(w, s), j) == 0 && forall t :: !Holds(Next(w, s), t, j)
  {
    hide Next, RowKept, OneLive, Current;
    if RunsOf(Next(w, s), j) > 0 { RunStep(w, s, j); }
    forall t: nat | Holds(Next(w, s), t, j) ensures false {
      HoldStep(w, s, t, j);
    }
  }

  lemma StepNotEarly(w: World, s: Step, j: nat)
    requires Kept(w) && NotEarly(w, j)
    ensures NotEarly(Next(w, s), j)
  {
    hide Kept, Next, Holds, RunsOf;
    if j >= |w.db.jobs| {
      NewRowRests(w, s, j);
    } else {
      var n := Next(w, s);
      StepGrows(w, s, j);
      if w.db.jobs[j].recurrence.None? {
        DateStays(w, s, j);
        if RunsOf(n, j) > RunsOf(w, j) { RunStep(w, s, j); }
        forall t: nat | Holds(n, t, j) ensures w.db.jobs[j].nextRunAt <= w.now {
          HoldStep(w, s, t, j);
        }
      }
    }
  }

  lemma {:induction false} RunNotEarly(w: World, steps: seq<Step>, j: nat)
    requires Kept(w) && NotEarly(w, j)
    ensures NotEarly(Run(w, steps), j)
  {
    hide Kept, Next, NotEarly;
    if steps != [] {
      var before := steps[..|steps| - 1];
      RunNotEarly(w, before, j);
      RunKept(w, before);
      StepNotEarly(Run(w, before), steps[|steps| - 1], j);
    }
  }

  lemma InitNotEarly(now: int, handlers: set<string>, j: nat)
    ensures NotEarly(Init(now, handlers), j)
  {
  }

  /** Over every run, a one-shot job whose handler has started had its time come. */
  lemma OneShotNeverEarly(now: int, handlers: set<string>, steps: seq<Step>, j: nat)
    requires j < |Run(Init(now, handlers), steps).db.jobs|
    ensures var w := Run(Init(now, handlers), steps);
      w.db.jobs[j].recurrence.None? && RunsOf(w, j) > 0 ==> w.db.jobs[j].nextRunAt <= w.now
  {
    hide Kept, Run, RunsOf, Holds;
    InitKept(now, handlers);
    InitNotEarly(now, handlers, j);
    RunNotEarly(Init(now, handlers), steps, j);
  }

  // ---- The end of a run ---------------------------------------------------

  /** `next` is when a rule that fired at `at` fires again: the step of an `every` rule, or the calendar's. */
  predicate FiresNext(rule: RecurrenceRule, at: int, next: int) {
    match rule
    case Every(minutes) => next == at + minutes * 60_000
    case Daily => next == at - at % 1000 + 86_400_000
    case Weekly => next == at - at % 1000 + 7 * 86_400_000
    case Monthly => MonthLater(at, next)
  }

  /**
   * In every reachable state, when a handler ends a recurring row is pending for
   * its next occurrence from now with no attempts and no delivery, whether or not
   * it failed; a one-shot row stays in `running`, with one attempt more if it failed. No
   * other row changes. A crash right after a failure is counted leaves that count alone.
   */
  lemma JobEndLeaves(now: int, handlers: set<string>, steps: seq<Step>, t: nat, ok: bool)
    requires var w := Run(Init(now, handlers), steps);
      t in w.ticks && w.ticks[t].current.Some?
    ensures var w := Run(Init(now, handlers), steps);
      var n := Next(w, JobEnd(t, ok));
      var id := w.ticks[t].current.value;
      && id < |w.db.jobs| == |n.db.jobs| && n.db.items == w.db.items && n.db.events == w.db.events && n.runs == w.runs
      && (forall j :: 0 <= j < |w.db.jobs| && j != id ==> n.db.jobs[j] == w.db.jobs[j])
      && var job, after := w.db.jobs[id], n.db.jobs[id];
         if job.recurrence.Some?
         then && FiresNext(job.recurrence.value, w.now, after.nextRunAt)
              && after == Job(job.kind, job.payload, after.nextRunAt, job.recurrence, JobPending, 0, None)
         else after == job.(attempts := job.attempts + if ok then 0 else 1)
    ensures var w := Run(Init(now, handlers), steps);
      var id := w.ticks[t].current.value;
      var counted := w.db.jobs[id].(attempts := w.db.jobs[id].attempts + 1);
      Next(w, CrashInEnd(t)).db == w.db.(jobs := w.db.jobs[id := counted])
  {
    hide RowKept, OneLive, Run, Current, NextOccurrence, MonthLater;
    InitKept(now, handlers);
    RunKept(Init(now, handlers), steps);
    var w := Run(Init(now, handlers), steps);
    var job := w.db.jobs[w.ticks[t].current.value];
    if job.recurrence.Some? {
      NextFires(job.recurrence.value, w.now);
    }
  }

  lemma NextFires(rule: RecurrenceRule, at: int)
    ensures FiresNext(rule, at, NextOccurrence(at, rule))
  {
    hide NextOccurrence, MonthLater;
    StepSize(at, rule);
    if rule.Monthly? { MonthlyLands(at); }
  }
}
