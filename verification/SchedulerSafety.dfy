/** What every run of the scheduler and the commands keeps. */
module SchedulerSafety {
  import opened Common
  import opened Recurrence
  import opened ExpandChain
  import opened TaskTables
  import opened ChainInvariants
  import opened StoreChanges
  import opened TornCommands
  import opened SchedulerMachine

  // ---- What a command may do to jobs -------------------------------------

  /** A pending chain reminder may be cancelled; nothing else about an existing job changes. */
  predicate JobEvolves(a: Job, b: Job) {
    || b == a
    || (a.status == JobPending && a.kind == REMINDER && a.payload.ChainReminder? && b == a.(status := JobCancelled))
  }

  predicate NewReminder(job: Job) {
    job.kind == REMINDER && job.recurrence.None? && job.status == JobPending
  }

  predicate JobsEvolve(a: seq<Job>, b: seq<Job>) {
    && |a| <= |b|
    && (forall i :: 0 <= i < |a| ==> JobEvolves(a[i], b[i]))
    && (forall i :: |a| <= i < |b| ==> NewReminder(b[i]))
  }

  lemma CommandEvolves(db: Db, c: Command, env: Env)
    ensures JobsEvolve(db.jobs, Apply(db, c, env).jobs)
  {
    hide Expand, ActiveEventBelow;
  }

  /** A torn command too: it cancels fewer reminders and adds fewer. */
  lemma TearEvolves(db: Db, tear: Tear, env: Env)
    ensures JobsEvolve(db.jobs, Torn(db, tear, env).jobs)
  {
    hide Expand, ActiveEventBelow;
  }

  // ---- The invariant ------------------------------------------------------

  /** A row is recurring exactly when it is not a reminder, and a recurring row is pending or in a handler. */
  predicate RowKept(job: Job) {
    && (job.recurrence.Some? <==> job.kind != REMINDER)
    && (job.recurrence.Some? ==> job.status == JobPending || job.status == JobRunning)
    && (job.payload.ChainReminder? ==> job.kind == REMINDER)
  }

  /** A tick holds rows of the table that no crash has lost, each once. */
  predicate TickKept(tick: Tick, rows: nat, orphans: set<nat>) {
    && Distinct(tick.todo) && (forall j <- tick.todo :: j < rows && j !in orphans)
    && (tick.current.Some? ==>
          tick.current.value < rows && tick.current.value !in orphans && tick.current.value !in tick.todo)
  }

  predicate TicksKept(w: World) {
    forall t <- w.ticks :: t < w.nextTick && TickKept(w.ticks[t], |w.db.jobs|, w.orphans)
  }

  predicate Live(w: World, j: nat)
    requires j < |w.db.jobs|
  {
    w.db.jobs[j].kind != REMINDER && j !in w.orphans
  }

  /** No two rows of a seeded type are alive: all but one were lost to crashes. */
  predicate OneLive(w: World) {
    forall i, j :: 0 <= i < j < |w.db.jobs| && Live(w, i) && Live(w, j) ==> w.db.jobs[i].kind != w.db.jobs[j].kind
  }

  predicate Kept(w: World) {
    && |w.runs| == |w.db.jobs|
    && (forall j :: 0 <= j < |w.db.jobs| ==> RowKept(w.db.jobs[j]))
    && TicksKept(w)
    && (forall j <- w.orphans :: j < |w.db.jobs| && w.db.jobs[j].status == JobRunning)
    && (forall j :: 0 <= j < |w.db.jobs| && Live(w, j) && w.db.jobs[j].status == JobRunning ==> j in Current(w))
    && OneLive(w)
  }

  /**
   * Whatever order the query returns, a tick takes exactly the jobs that are pending,
   * not delivered and whose time has come, each once.
   */
  lemma DueContents(jobs: seq<Job>, now: int, order: seq<nat>)
    requires IsPendingList(jobs, order)
    ensures var due := SelectDue(jobs, now, order);
      && (forall j: nat :: j in due <==>
            && j < |jobs| && jobs[j].status == JobPending && jobs[j].deliveredAt.None? && jobs[j].nextRunAt <= now)
      && Distinct(due)
  {
    DueOfList(jobs, now, order);
  }

  lemma {:induction false} DueOfList(jobs: seq<Job>, now: int, order: seq<nat>)
    requires Distinct(order)
    ensures forall j: nat :: j in SelectDue(jobs, now, order) <==> j in order && j < |jobs| && IsDue(jobs[j], now)
    ensures Distinct(SelectDue(jobs, now, order))
  {
    hide IsDue;
    if order != [] {
      var n := |order| - 1;
      DueOfList(jobs, now, order[..n]);
      assert order == order[..n] + [order[n]];
      assert order[n] !in order[..n];
    }
  }

  /** Some such list exists: the ids in order. */
  function PendingIds(jobs: seq<Job>, n: nat): (ids: seq<nat>)
    requires n <= |jobs|
    ensures Distinct(ids)
    ensures forall j: nat :: j in ids <==> j < n && jobs[j].status == JobPending
  {
    if n == 0 then [] else PendingIds(jobs, n - 1) + if jobs[n - 1].status == JobPending then [n - 1] else []
  }

  // ---- Steps --------------------------------------------------------------

  lemma CommandKept(w: World, db: Db)
    requires Kept(w) && JobsEvolve(w.db.jobs, db.jobs)
    ensures Kept(AfterCommand(w, db))
  {
    hide Current;
    var n := AfterCommand(w, db);
    assert Current(n) == Current(w) by { SameTicksSameCurrent(w, n); }
    forall j | 0 <= j < |n.db.jobs|
      ensures RowKept(n.db.jobs[j]) && (j < |w.db.jobs| ==> n.db.jobs[j].kind == w.db.jobs[j].kind)
    {
      if j < |w.db.jobs| {
        assert RowKept(w.db.jobs[j]) && JobEvolves(w.db.jobs[j], db.jobs[j]);
      } else {
        assert NewReminder(db.jobs[j]);
        NewReminderKept(db.jobs[j]);
      }
    }
    forall j <- n.orphans ensures j < |n.db.jobs| && n.db.jobs[j].status == JobRunning {
      assert JobEvolves(w.db.jobs[j], db.jobs[j]);
    }
    forall j | 0 <= j < |n.db.jobs| && Live(n, j) && n.db.jobs[j].status == JobRunning ensures j in Current(n) {
      assert JobEvolves(w.db.jobs[j], db.jobs[j]);
    }
  }

  lemma NewReminderKept(job: Job)
    requires NewReminder(job)
    ensures RowKept(job)
  {
  }

  lemma SameTicksSameCurrent(a: World, b: World)
    requires a.ticks == b.ticks
    ensures Current(a) == Current(b)
  {
  }

  lemma StartKept(w: World, t: nat)
    requires Kept(w) && t in w.ticks && w.ticks[t].current.None? && w.ticks[t].todo != []
    ensures Kept(Start(w, t))
  {
    hide RowKept;
    var id := w.ticks[t].todo[0];
    var n := Start(w, t);
    assert id in w.ticks[t].todo;
    assert id < |w.db.jobs|;
    forall j <- w.ticks[t].todo[1..] ensures j in w.ticks[t].todo {
    }
    assert RowKept(w.db.jobs[id].(status := JobRunning)) by { RunningKept(w.db.jobs[id]); }
    CurrentAfter(w, n, t);
  }

  lemma RunningKept(job: Job)
    requires RowKept(job)
    ensures RowKept(job.(status := JobRunning))
  {
  }

  /** Replacing one tick changes the running jobs by that tick's job alone. */
  lemma CurrentAfter(w: World, n: World, t: nat)
    requires t in w.ticks && n.ticks - {t} == w.ticks - {t}
    ensures forall j :: j in Current(w) && w.ticks[t].current != Some(j) ==> j in Current(n)
    ensures t in n.ticks && n.ticks[t].current.Some? ==> n.ticks[t].current.value in Current(n)
  {
    forall j | j in Current(w) && w.ticks[t].current != Some(j) ensures j in Current(n) {
      var u :| u in w.ticks && w.ticks[u].current == Some(j);
      assert u in (w.ticks - {t}) && (n.ticks - {t})[u] == (w.ticks - {t})[u];
    }
  }

  lemma EndKept(w: World, t: nat, ok: bool)
    requires Kept(w) && t in w.ticks && w.ticks[t].current.Some?
    ensures Kept(End(w, t, ok))
  {
    hide RowKept, NextOccurrence, Current;
    var id := w.ticks[t].current.value;
    var n := End(w, t, ok);
    assert RowKept(w.db.jobs[id]);
    EndRowKept(w.db.jobs[id], w.now, ok);
    CurrentAfter(w, n, t);
  }

  lemma EndRowKept(job: Job, now: int, ok: bool)
    requires RowKept(job)
    ensures var counted := if ok then job else job.(attempts := job.attempts + 1);
      && RowKept(if job.recurrence.Some? then Rescheduled(counted, now) else counted)
      && (job.recurrence.Some? <==> job.kind != REMINDER)
  {
    hide NextOccurrence;
  }

  lemma TickStartKept(w: World, order: seq<nat>)
    requires Kept(w) && IsPendingList(w.db.jobs, order)
    ensures Kept(StartTick(w, order))
  {
    hide RowKept, Current, SelectDue;
    DueContents(w.db.jobs, w.now, order);
    var n := StartTick(w, order);
    forall j | j in Current(w) ensures j in Current(n) {
      CurrentGrows(w, n, j);
    }
    var due := SelectDue(w.db.jobs, w.now, order);
    forall j <- due ensures j < |w.db.jobs| && j !in w.orphans {
      assert IsDue(w.db.jobs[j], w.now);
    }
    assert TickKept(Tick(due, None), |n.db.jobs|, n.orphans);
  }

  lemma CurrentGrows(w: World, n: World, j: nat)
    requires j in Current(w) && forall t <- w.ticks :: t in n.ticks && n.ticks[t] == w.ticks[t]
    ensures j in Current(n)
  {
    var u :| u in w.ticks && w.ticks[u].current == Some(j);
    assert n.ticks[u].current == Some(j);
  }

  lemma TickEndKept(w: World, t: nat)
    requires Kept(w) && t in w.ticks && w.ticks[t] == Tick([], None)
    ensures Kept(w.(ticks := w.ticks - {t}))
  {
    hide RowKept, Current;
    CurrentAfter(w, w.(ticks := w.ticks - {t}), t);
  }

  lemma CrashKept(w: World)
    requires Kept(w)
    ensures Kept(Crashed(w))
  {
    hide RowKept;
  }

  lemma SeedKept(w: World, kind: string, rule: RecurrenceRule, firstRunAt: int)
    requires Kept(w) && w.ticks == map[] && kind != REMINDER && !AnyPending(w.db.jobs, kind)
    ensures Kept(Next(w, Seed(kind, rule, firstRunAt)))
  {
    hide Current;
    var n := Next(w, Seed(kind, rule, firstRunAt));
    assert Current(w) == {} by { NoTicksNoCurrent(w); }
    forall j | 0 <= j < |w.db.jobs| && Live(w, j) ensures w.db.jobs[j].kind != kind {
      assert RowKept(w.db.jobs[j]);
    }
  }

  lemma NoTicksNoCurrent(w: World)
    requires w.ticks == map[]
    ensures Current(w) == {}
  {
  }

  lemma CrashInKept(w: World, tear: Tear, env: Env)
    requires Kept(w)
    ensures Kept(Next(w, CrashIn(tear, env)))
  {
    hide Kept, Torn, AfterCommand, Crashed;
    var db := Torn(w.db, tear, env);
    TearEvolves(w.db, tear, env);
    CommandKept(w, db);
    CrashKept(AfterCommand(w, db));
  }

  lemma CrashInEndKept(w: World, t: nat)
    requires Kept(w) && t in w.ticks && w.ticks[t].current.Some? && w.ticks[t].current.value < |w.db.jobs|
    ensures Kept(Next(w, CrashInEnd(t)))
  {
    hide RowKept, Current, Crashed;
    var id := w.ticks[t].current.value;
    CountedRowKept(w.db.jobs[id]);
    SameTicksSameCurrent(w, Counted(w, t));
    CrashKept(Counted(w, t));
  }

  lemma CountedRowKept(job: Job)
    requires RowKept(job)
    ensures RowKept(job.(attempts := job.attempts + 1))
  {
  }

  lemma StepKept(w: World, s: Step)
    requires Kept(w)
    ensures Kept(Next(w, s))
  {
    hide RowKept, Apply, Start, End, Counted, Current, JobsEvolve, Crashed, StartTick, AfterCommand, Torn,
         IsPendingList;
    match s
    case Command(c, env) =>
      CommandEvolves(w.db, c, env);
      CommandKept(w, Apply(w.db, c, env));
    case Elapse(ms) => SameTicksSameCurrent(w, Next(w, s));
    case TickStart(order) => if IsPendingList(w.db.jobs, order) { TickStartKept(w, order); }
    case JobStart(t) => if t in w.ticks && w.ticks[t].current.None? && w.ticks[t].todo != [] { StartKept(w, t); }
    case JobEnd(t, ok) => if t in w.ticks && w.ticks[t].current.Some? { EndKept(w, t, ok); }
    case TickEnd(t) => if t in w.ticks && w.ticks[t] == Tick([], None) { TickEndKept(w, t); }
    case Crash => CrashKept(w);
    case CrashIn(tear, env) => CrashInKept(w, tear, env);
    case CrashInEnd(t) =>
      if t in w.ticks && w.ticks[t].current.Some? && w.ticks[t].current.value < |w.db.jobs| {
        CrashInEndKept(w, t);
      }
    case Seed(kind, rule, at) =>
      if w.ticks == map[] && kind != REMINDER && !AnyPending(w.db.jobs, kind) { SeedKept(w, kind, rule, at); }
  }

  lemma {:induction false} RunKept(w: World, steps: seq<Step>)
    requires Kept(w)
    ensures Kept(Run(w, steps))
  {
    hide Kept, Next;
    if steps != [] {
      RunKept(w, steps[..|steps| - 1]);
      StepKept(Run(w, steps[..|steps| - 1]), steps[|steps| - 1]);
    }
  }

  // ---- The store under the scheduler -------------------------------------

  /** Changing a job's progress, without reopening a chain reminder, keeps the store consistent. */
  lemma SetJobKeepsStore(db: Db, id: nat, job: Job)
    requires StoreInv(db) && id < |db.jobs|
    requires JobProgress(db.jobs[id], job)
    ensures StoreInv(db.(jobs := db.jobs[id := job]))
  {
    hide OneActive, DatesAgree, SourcesUnique, GcalUnique;
    assert JobKept(db.events, db.jobs[id]);
  }

  /** A step keeps the store consistent, unless the process dies inside a command at a harmful point. */
  lemma StepStore(w: World, s: Step)
    requires StoreInv(w.db) && Kept(w)
    ensures StoreInv(Next(w, s).db) <==> (s.CrashIn? ==> Harmless(w.db, s.tear))
  {
    hide StoreInv, Apply, NextOccurrence, OneLive, Current, Torn, Harmless, IsPendingList, SelectDue;
    match s
    case Command(c, env) => CommandKeeps(w.db, c, env);
    case JobStart(t) =>
      if t in w.ticks && w.ticks[t].current.None? && w.ticks[t].todo != [] {
        var id := w.ticks[t].todo[0];
        assert id in w.ticks[t].todo;
        assert id < |w.db.jobs|;
        SetJobKeepsStore(w.db, id, w.db.jobs[id].(status := JobRunning));
      }
    case JobEnd(t, ok) =>
      if t in w.ticks && w.ticks[t].current.Some? {
        var id := w.ticks[t].current.value;
        assert RowKept(w.db.jobs[id]);
        SetJobKeepsStore(w.db, id, End(w, t, ok).db.jobs[id]);
      }
    case CrashInEnd(t) =>
      if t in w.ticks && w.ticks[t].current.Some? {
        var id := w.ticks[t].current.value;
        SetJobKeepsStore(w.db, id, Counted(w, t).db.jobs[id]);
      }
    case Seed(kind, rule, at) => AddPlainJobKeeps(w.db, SeedJob(kind, rule, at));
    case CrashIn(tear, env) =>
      TearEvolves(w.db, tear, env);
      TornIff(w.db, tear, env);
    case _ =>
  }

  /** A step as a change to the task store: what ticks and seeds do to the jobs is progress. */
  function ChangeOf(w: World, s: Step): Change {
    match s
    case Command(c, env) => Issued(c, env)
    case CrashIn(tear, env) => Died(tear, env)
    case _ => Progress(Next(w, s).db.jobs)
  }

  /** Every step of the scheduler is one of the changes the promises of the task store range over. */
  lemma StepIsChange(w: World, s: Step)
    requires Kept(w)
    ensures Next(w, s).db == Changed(w.db, ChangeOf(w, s))
  {
    hide Changed, Apply, Torn;
    match s
    case Command(c, env) =>
      CommandEvolves(w.db, c, env);
      ChangedByCommand(w.db, c, env);
    case CrashIn(tear, env) =>
      TearEvolves(w.db, tear, env);
      ChangedByTear(w.db, tear, env);
    case _ => SchedulerMakesProgress(w, s);
  }

  lemma ChangedByCommand(db: Db, c: Command, env: Env)
    ensures Changed(db, Issued(c, env)) == Apply(db, c, env)
  {
    hide Apply;
  }

  lemma ChangedByTear(db: Db, tear: Tear, env: Env)
    ensures Changed(db, Died(tear, env)) == Torn(db, tear, env)
  {
    hide Torn;
  }

  lemma SchedulerMakesProgress(w: World, s: Step)
    requires Kept(w) && !s.Command? && !s.CrashIn?
    ensures Next(w, s).db == Changed(w.db, Progress(Next(w, s).db.jobs))
  {
    hide NextOccurrence, RowKept, OneLive, Current, Torn, IsPendingList, SelectDue, AnyPending, JobProgress;
    forall i | 0 <= i < |w.db.jobs| ensures JobProgress(w.db.jobs[i], w.db.jobs[i]) {
      SameIsProgress(w.db.jobs[i]);
    }
    match s
    case JobStart(t) =>
      if t in w.ticks && w.ticks[t].todo != [] {
        assert w.ticks[t].todo[0] in w.ticks[t].todo;
        StartIsProgress(w.db.jobs[w.ticks[t].todo[0]]);
      }
    case JobEnd(t, ok) =>
      if t in w.ticks && w.ticks[t].current.Some? {
        EndIsProgress(w.db.jobs[w.ticks[t].current.value], w.now);
      }
    case CrashInEnd(t) =>
      if t in w.ticks && w.ticks[t].current.Some? {
        EndIsProgress(w.db.jobs[w.ticks[t].current.value], w.now);
      }
    case _ =>
  }

  lemma SameIsProgress(job: Job)
    ensures JobProgress(job, job)
  {
  }

  lemma StartIsProgress(job: Job)
    ensures JobProgress(job, job.(status := JobRunning))
  {
  }

  lemma EndIsProgress(job: Job, now: int)
    requires RowKept(job)
    ensures var counted := job.(attempts := job.attempts + 1);
      && JobProgress(job, counted)
      && (job.recurrence.Some? ==>
            JobProgress(job, Rescheduled(job, now)) && JobProgress(job, Rescheduled(counted, now)))
  {
    hide NextOccurrence;
  }

  lemma InitKept(now: int, handlers: set<string>)
    ensures Kept(Init(now, handlers)) && StoreInv(Init(now, handlers).db)
  {
  }
}
