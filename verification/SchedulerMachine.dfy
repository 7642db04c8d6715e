/**
 * The scheduler over the task store as a state machine. Handlers await, so
 * commands, the clock and even other ticks run between the start and the end
 * of a job. A crash falls between two steps, or between the statements of a
 * drop, of a move, or of a failed job's end.
 */
module SchedulerMachine {
  import opened Common
  import opened Recurrence
  import opened TaskTables
  import opened StoreChanges

  /** A tick in progress: the due jobs it read and has not started, and the one whose handler is running. */
  datatype Tick = Tick(todo: seq<nat>, current: Option<nat>)

  datatype World = World(
    db: Db, now: int, handlers: set<string>,
    ticks: map<nat, Tick>, nextTick: nat,
    runs: seq<nat>,          // handler runs of each job so far
    orphans: set<nat>)       // jobs whose handler was running at a crash

  datatype Step =
    | Command(command: Command, env: Env)
    | Elapse(ms: nat)
    | TickStart(order: seq<nat>)   // the pending jobs in the order the query happens to return them
    | JobStart(tick: nat)
    | JobEnd(tick: nat, ok: bool)
    | TickEnd(tick: nat)
    | Crash
    | CrashIn(tear: Tear, env: Env)   // the process dies inside a drop or a move
    | CrashInEnd(tick: nat)           // it dies once a failed attempt is counted, before the row is rescheduled
    | Seed(kind: string, rule: RecurrenceRule, firstRunAt: int)   // at boot, before any tick

  predicate IsDue(job: Job, now: int) {
    job.deliveredAt.None? && job.status == JobPending && job.nextRunAt <= now
  }

  predicate Distinct(ids: seq<nat>) {
    forall a, b :: 0 <= a < b < |ids| ==> ids[a] != ids[b]
  }

  /** What the query for pending jobs may return: each pending row once, in no promised order. */
  predicate IsPendingList(jobs: seq<Job>, order: seq<nat>) {
    && Distinct(order)
    && (forall j <- order :: j < |jobs| && jobs[j].status == JobPending)
    && (forall j :: 0 <= j < |jobs| && jobs[j].status == JobPending ==> j in order)
  }

  /** Those of the listed jobs that are due, in the order listed. */
  function SelectDue(jobs: seq<Job>, now: int, order: seq<nat>): seq<nat> {
    if order == [] then []
    else
      var last := order[|order| - 1];
      SelectDue(jobs, now, order[..|order| - 1]) + if last < |jobs| && IsDue(jobs[last], now) then [last] else []
  }

  function SetJob(w: World, id: nat, job: Job): World
    requires id < |w.db.jobs|
  {
    w.(db := w.db.(jobs := w.db.jobs[id := job]))
  }

  function Rescheduled(job: Job, now: int): Job
    requires job.recurrence.Some?
  {
    var next := NextOccurrence(now, job.recurrence.value);
    job.(status := JobPending, nextRunAt := next, deliveredAt := None, attempts := 0)
  }

  function Start(w: World, t: nat): World
    requires t in w.ticks && w.ticks[t].todo != []
  {
    var id := w.ticks[t].todo[0];
    var rest := w.ticks[t].todo[1..];
    if id >= |w.db.jobs| || id >= |w.runs| || w.db.jobs[id].kind !in w.handlers then
      w.(ticks := w.ticks[t := Tick(rest, None)])
    else
      // whatever the row's status is by now
      SetJob(w, id, w.db.jobs[id].(status := JobRunning)).(
        runs := w.runs[id := w.runs[id] + 1], ticks := w.ticks[t := Tick(rest, Some(id))])
  }

  /** A recurring job is rescheduled even when its handler fails; a one-shot failure aborts the tick. */
  function End(w: World, t: nat, ok: bool): World
    requires t in w.ticks && w.ticks[t].current.Some? && w.ticks[t].current.value < |w.db.jobs|
  {
    var id := w.ticks[t].current.value;
    var job := w.db.jobs[id];
    var counted := if ok then job else job.(attempts := job.attempts + 1);
    var next := SetJob(w, id, if job.recurrence.Some? then Rescheduled(counted, w.now) else counted);
    if !ok && job.recurrence.None? then next.(ticks := w.ticks - {t})
    else next.(ticks := w.ticks[t := w.ticks[t].(current := None)])
  }

  /** The first statement after a handler threw. */
  function Counted(w: World, t: nat): World
    requires t in w.ticks && w.ticks[t].current.Some? && w.ticks[t].current.value < |w.db.jobs|
  {
    var id := w.ticks[t].current.value;
    SetJob(w, id, w.db.jobs[id].(attempts := w.db.jobs[id].attempts + 1))
  }

  function Current(w: World): set<nat> {
    set t | t in w.ticks && w.ticks[t].current.Some? :: w.ticks[t].current.value
  }

  predicate AnyPending(jobs: seq<Job>, kind: string) {
    exists i :: 0 <= i < |jobs| && jobs[i].kind == kind && jobs[i].status == JobPending
  }

  function SeedJob(kind: string, rule: RecurrenceRule, firstRunAt: int): Job {
    Job(kind, NoPayload, firstRunAt, Some(rule), JobPending, 0, None)
  }

  function Zeros(n: nat): seq<nat> {
    seq(n, i => 0)
  }

  function AfterCommand(w: World, db: Db): World
    requires |w.db.jobs| <= |db.jobs|
  {
    w.(db := db, runs := w.runs + Zeros(|db.jobs| - |w.db.jobs|))
  }

  function StartTick(w: World, order: seq<nat>): World {
    w.(ticks := w.ticks[w.nextTick := Tick(SelectDue(w.db.jobs, w.now, order), None)], nextTick := w.nextTick + 1)
  }

  function Crashed(w: World): World {
    w.(ticks := map[],
       orphans := w.orphans + set j | j in Current(w) && j < |w.db.jobs| && w.db.jobs[j].status == JobRunning)
  }

  function Next(w: World, s: Step): World {
    match s
    case Command(c, env) =>
      var db := Apply(w.db, c, env);
      if |w.db.jobs| <= |db.jobs| then AfterCommand(w, db) else w
    case Elapse(ms) => w.(now := w.now + ms)
    case TickStart(order) => if IsPendingList(w.db.jobs, order) then StartTick(w, order) else w
    case JobStart(t) => if t in w.ticks && w.ticks[t].current.None? && w.ticks[t].todo != [] then Start(w, t) else w
    case JobEnd(t, ok) =>
      if t in w.ticks && w.ticks[t].current.Some? && w.ticks[t].current.value < |w.db.jobs| then End(w, t, ok) else w
    case TickEnd(t) => if t in w.ticks && w.ticks[t] == Tick([], None) then w.(ticks := w.ticks - {t}) else w
    case Crash => Crashed(w)
    case CrashIn(tear, env) =>
      var db := Torn(w.db, tear, env);
      Crashed(if |w.db.jobs| <= |db.jobs| then AfterCommand(w, db) else w)
    case CrashInEnd(t) =>
      if t in w.ticks && w.ticks[t].current.Some? && w.ticks[t].current.value < |w.db.jobs| then Crashed(Counted(w, t))
      else w
    case Seed(kind, rule, firstRunAt) =>
      if w.ticks != map[] || kind == REMINDER || AnyPending(w.db.jobs, kind) then w
      else w.(db := w.db.(jobs := w.db.jobs + [SeedJob(kind, rule, firstRunAt)]), runs := w.runs + [0])
  }

  function Run(w: World, steps: seq<Step>): World {
    if steps == [] then w else Next(Run(w, steps[..|steps| - 1]), steps[|steps| - 1])
  }

  lemma {:induction false} RunConcat(w: World, a: seq<Step>, b: seq<Step>)
    ensures Run(w, a + b) == Run(Run(w, a), b)
  {
    hide Next;
    if b == [] {
      assert a + b == a;
    } else {
      assert (a + b)[..|a + b| - 1] == a + b[..|b| - 1];
      RunConcat(w, a, b[..|b| - 1]);
    }
  }

  function Init(now: int, handlers: set<string>): World {
    World(Db([], [], []), now, handlers, map[], 0, [], {})
  }
}
