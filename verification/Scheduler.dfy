/** The scheduler as written: one tick walks the due jobs it read, awaiting each handler. */
module Scheduling {
  import opened Common
  import opened Counting
  import opened Recurrence
  import opened TaskTables
  import opened TaskServices
  import opened SchedulerMachine
  import opened SchedulerSafety
  import opened SchedulerTheorems

  /** What may happen while tick `t` awaits: commands, the clock, and the steps of any other tick. */
  predicate Outside(s: Step, t: nat) {
    match s
    case Command(_, _) => true
    case Elapse(_) => true
    case TickStart(_) => true
    case JobStart(u) => u != t
    case JobEnd(u, _) => u != t
    case TickEnd(u) => u != t
    case _ => false
  }

  /** Steps without a crash in which tick `t` took up `n` of its jobs. */
  predicate Starts(steps: seq<Step>, t: nat, n: nat) {
    NoCrash(steps) && Count(steps, (s: Step) => s == JobStart(t)) == n
  }

  lemma OutsideStarts(steps: seq<Step>, t: nat)
    requires forall s <- steps :: Outside(s, t)
    ensures Starts(steps, t, 0)
  {
    forall i | 0 <= i < |steps| ensures steps[i] != JobStart(t) {
      assert steps[i] in steps;
    }
    CountNone(steps, (s: Step) => s == JobStart(t));
  }

  lemma {:induction false} StartsConcat(a: seq<Step>, b: seq<Step>, t: nat, m: nat, n: nat)
    requires Starts(a, t, m) && Starts(b, t, n)
    ensures Starts(a + b, t, m + n)
  {
    if b == [] {
      assert a + b == a;
    } else {
      var last := b[|b| - 1];
      assert (a + b)[..|a + b| - 1] == a + b[..|b| - 1];
      assert b[..|b| - 1] + [last] == b;
      StartsConcat(a, b[..|b| - 1], t, m, if last == JobStart(t) then n - 1 else n);
    }
  }

  lemma OneStart(s: Step, t: nat)
    requires !s.Crash? && !s.CrashIn? && !s.CrashInEnd?
    ensures Starts([s], t, if s == JobStart(t) then 1 else 0)
  {
    CountAppend([], s, (s: Step) => s == JobStart(t));
    assert [] + [s] == [s];
  }

  lemma RunOne(w: World, s: Step)
    ensures Run(w, [s]) == Next(w, s)
  {
    hide Next;
    assert [s][..0] == [];
  }

  lemma OutsideLeavesTick(w: World, s: Step, t: nat)
    requires Kept(w) && t in w.ticks && Outside(s, t)
    ensures var n := Next(w, s); t in n.ticks && n.ticks[t] == w.ticks[t] && n.handlers == w.handlers
  {
    hide Apply, RowKept, OneLive, SelectDue, IsPendingList, NextOccurrence, Current;
  }

  lemma JobsOfTick(w: World, t: nat)
    requires Kept(w) && t in w.ticks
    ensures |w.runs| == |w.db.jobs| && t < w.nextTick
    ensures forall j <- w.ticks[t].todo :: j < |w.db.jobs|
    ensures w.ticks[t].current.Some? ==> w.ticks[t].current.value < |w.db.jobs|
  {
    hide RowKept, OneLive, Current;
  }

  lemma NonePending(jobs: seq<Job>, kind: string)
    ensures AnyPending(jobs, kind) <==> PendingOf(jobs, kind) != {}
    ensures jobs + [] == jobs
  {
    if AnyPending(jobs, kind) {
      var i :| 0 <= i < |jobs| && jobs[i].kind == kind && jobs[i].status == JobPending;
      assert i in PendingOf(jobs, kind);
    }
  }

  lemma StepOfTick(w: World, t: nat)
    requires t in w.ticks && w.ticks[t].current.None? && w.ticks[t].todo != []
    ensures Next(w, JobStart(t)) == Start(w, t)
  {
  }

  lemma EndOfJob(w: World, t: nat, ok: bool)
    requires t in w.ticks && w.ticks[t].current.Some? && w.ticks[t].current.value < |w.db.jobs|
    ensures Next(w, JobEnd(t, ok)) == End(w, t, ok)
    ensures Next(w, CrashInEnd(t)).db == Counted(w, t).db
  {
  }

  class Scheduler {
    const tables: Tables
    const jobHandlers: set<string>
    var clock: int
    var lastTickAt: Option<int>
    /** The machine state reached so far; what other code did to the tables during an await is read off it. */
    var world: World

    ghost predicate Valid()
      reads this, tables
    {
      Kept(world) && world.db == tables.State() && world.now == clock && world.handlers == jobHandlers
    }

    /** A process start on the tables an earlier process left behind. */
    constructor (tables: Tables, before: World)
      requires Kept(before) && before.db == tables.State()
      ensures Valid() && this.tables == tables && world == Next(before, Crash) && lastTickAt.None?
    {
      this.tables, jobHandlers, clock, lastTickAt := tables, before.handlers, before.now, None;
      world := Next(before, Crash);
      new;
      hide Kept;
      StepKept(before, Crash);
    }

    method Record(s: Step)
      requires Kept(world)
      modifies `world
      ensures world == Next(old(world), s) == Run(old(world), [s]) && Kept(world)
    {
      hide Kept, Next;
      RunOne(world, s);
      StepKept(world, s);
      world := Next(world, s);
    }

    /** At boot, before any tick: a job that recurs every so many minutes. */
    method EnsureRecurringJob(kind: string, intervalMinutes: int)
      requires Valid() && world.ticks == map[] && kind != REMINDER
      modifies `world, tables`jobs
      ensures Valid() && world.ticks == map[] && |PendingOf(tables.jobs, kind)| == 1
      ensures world == Next(old(world), Seed(kind, Every(intervalMinutes), clock + intervalMinutes * 60_000))
      ensures tables.jobs == old(tables.jobs) + if PendingOf(old(tables.jobs), kind) != {} then [] else
        [Job(kind, NoPayload, clock + intervalMinutes * 60_000, Some(Every(intervalMinutes)), JobPending, 0, None)]
    {
      hide Kept;
      SeededExactlyOnce(world, kind, Every(intervalMinutes), clock + intervalMinutes * 60_000);
      NonePending(tables.jobs, kind);
      if !AnyPending(tables.jobs, kind) {
        tables.jobs := tables.jobs
          + [Job(kind, NoPayload, clock + intervalMinutes * 60_000, Some(Every(intervalMinutes)), JobPending, 0, None)];
      }
      Record(Seed(kind, Every(intervalMinutes), clock + intervalMinutes * 60_000));
    }

    /** At boot, before any tick: a daily ritual. */
    method EnsureDailyRitualJob(kind: string, hour: int, minute: int)
      requires Valid() && world.ticks == map[] && kind != REMINDER
      modifies `world, tables`jobs
      ensures Valid() && world.ticks == map[] && |PendingOf(tables.jobs, kind)| == 1
      ensures world == Next(old(world), Seed(kind, Daily, NextDailyRunAt(hour, minute, clock)))
      ensures tables.jobs == old(tables.jobs) + if PendingOf(old(tables.jobs), kind) != {} then [] else
        [Job(kind, NoPayload, NextDailyRunAt(hour, minute, clock), Some(Daily), JobPending, 0, None)]
    {
      hide Kept, NextDailyRunAt;
      SeededExactlyOnce(world, kind, Daily, NextDailyRunAt(hour, minute, clock));
      NonePending(tables.jobs, kind);
      if !AnyPending(tables.jobs, kind) {
        tables.jobs := tables.jobs
          + [Job(kind, NoPayload, NextDailyRunAt(hour, minute, clock), Some(Daily), JobPending, 0, None)];
      }
      Record(Seed(kind, Daily, NextDailyRunAt(hour, minute, clock)));
    }

    /** An await inside tick `t`: any steps of other code, with the tick itself untouched. */
    method Await(t: nat) returns (ghost steps: seq<Step>)
      requires Valid() && t in world.ticks
      modifies `clock, `world, tables
      ensures Valid() && world == Run(old(world), steps) && Starts(steps, t, 0)
      ensures t in world.ticks && world.ticks[t] == old(world).ticks[t]
    {
      hide Kept, Next;
      steps := [];
      OutsideStarts(steps, t);
      var n: nat := *;
      while n > 0
        invariant Valid() && world == Run(old(world), steps)
        invariant forall s <- steps :: Outside(s, t)
        invariant t in world.ticks && world.ticks[t] == old(world).ticks[t]
      {
        var s: Step := *;
        if Outside(s, t) {
          OutsideLeavesTick(world, s, t);
          RunConcat(old(world), steps, [s]);
          Record(s);
          steps := steps + [s];
          tables.items, tables.events, tables.jobs := world.db.items, world.db.events, world.db.jobs;
          clock := world.now;
        }
        n := n - 1;
      }
      OutsideStarts(steps, t);
    }

    /**
     * One job of tick `t`. An unknown type is skipped; a failing one-shot job
     * aborts the tick, a failing recurring one does not.
     */
    method RunJob(jobId: nat, t: nat) returns (aborted: bool, ghost steps: seq<Step>)
      requires Valid() && t in world.ticks && world.ticks[t].current.None?
      requires world.ticks[t].todo != [] && jobId == world.ticks[t].todo[0]
      modifies `clock, `world, tables
      ensures Valid() && world == Run(old(world), steps) && Starts(steps, t, 1)
      ensures aborted ==> t !in world.ticks
      ensures !aborted ==> t in world.ticks && world.ticks[t] == Tick(old(world).ticks[t].todo[1..], None)
    {
      hide Kept, Run, Next, NextOccurrence;
      JobsOfTick(world, t);
      StepOfTick(world, t);
      assert jobId in world.ticks[t].todo;
      var row := tables.jobs[jobId];
      steps := [JobStart(t)];
      OneStart(JobStart(t), t);
      aborted := false;
      if row.kind !in jobHandlers {
        Record(JobStart(t));
        return;
      }
      tables.jobs := tables.jobs[jobId := row.(status := JobRunning)];
      Record(JobStart(t));
      ghost var others := Await(t);   // the handler
      RunConcat(old(world), steps, others);
      StartsConcat(steps, others, t, 1, 0);
      steps := steps + others;
      JobsOfTick(world, t);
      var ok: bool := *;
      EndOfJob(world, t, ok);
      if !ok {
        tables.jobs := tables.jobs[jobId := tables.jobs[jobId].(attempts := tables.jobs[jobId].attempts + 1)];
        assert tables.State() == Next(world, CrashInEnd(t)).db;   // what a crash right here leaves
        aborted := tables.jobs[jobId].recurrence.None?;
      }
      var job := tables.jobs[jobId];
      if job.recurrence.Some? {
        var next := NextOccurrence(clock, job.recurrence.value);
        tables.jobs := tables.jobs[jobId := job.(status := JobPending, nextRunAt := next, deliveredAt := None,
                                                 attempts := 0)];
      }
      OneStart(JobEnd(t, ok), t);
      RunConcat(old(world), steps, [JobEnd(t, ok)]);
      StartsConcat(steps, [JobEnd(t, ok)], t, 1, 0);
      steps := steps + [JobEnd(t, ok)];
      Record(JobEnd(t, ok));
    }

    /** The pending jobs, in whatever order the table gives them. */
    method FindPending() returns (order: seq<nat>)
      ensures IsPendingList(tables.jobs, order)
    {
      order := PendingIds(tables.jobs, |tables.jobs|);
    }

    /** A tick takes up every job due at its start, once each in the order read, unless a one-shot failure aborts it. */
    method TickOnce() returns (aborted: bool, ghost order: seq<nat>, ghost steps: seq<Step>)
      requires Valid()
      modifies this, tables
      ensures Valid() && world == Run(old(world), steps) && NoCrash(steps)
      ensures IsPendingList(old(tables.jobs), order) && steps != [] && steps[0] == TickStart(order)
      ensures var due, jobs := SelectDue(old(tables.jobs), old(clock), order), old(tables.jobs);
        forall j: nat :: j in due <==>
          && j < |jobs| && jobs[j].status == JobPending && jobs[j].deliveredAt.None? && jobs[j].nextRunAt <= old(clock)
      ensures var due := SelectDue(old(tables.jobs), old(clock), order);
        if aborted then lastTickAt == old(lastTickAt)
        else lastTickAt == Some(clock) && Starts(steps, old(world).nextTick, |due|)
      ensures old(world).nextTick !in world.ticks
    {
      hide Kept, Run, SelectDue, IsPendingList;
      var t := world.nextTick;
      var pending := FindPending();
      order := pending;
      var due := SelectDue(tables.jobs, clock, pending);
      DueContents(tables.jobs, clock, pending);
      Record(TickStart(pending));
      steps := [TickStart(order)];
      OneStart(TickStart(order), t);
      aborted := false;
      for i := 0 to |due|
        invariant Valid() && world == Run(old(world), steps) && Starts(steps, t, i)
        invariant steps != [] && steps[0] == TickStart(order)
        invariant t in world.ticks && world.ticks[t] == Tick(due[i..], None)
        invariant lastTickAt == old(lastTickAt)
      {
        ghost var more;
        aborted, more := RunJob(due[i], t);
        RunConcat(old(world), steps, more);
        StartsConcat(steps, more, t, i, 1);
        steps := steps + more;
        if aborted {
          return;
        }
      }
      OneStart(TickEnd(t), t);
      RunConcat(old(world), steps, [TickEnd(t)]);
      StartsConcat(steps, [TickEnd(t)], t, |due|, 0);
      steps := steps + [TickEnd(t)];
      Record(TickEnd(t));
      lastTickAt := Some(clock);
    }
  }
}
