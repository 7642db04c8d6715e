/** When exactly a one-shot job runs once, and a cancelled one not at all. */
module OneShots {
  import opened Common
  import opened Recurrence
  import opened ExpandChain
  import opened TaskTables
  import opened StoreChanges
  import opened SchedulerMachine
  import opened SchedulerSafety
  import opened SchedulerTheorems

  /** Some tick has read the job and not started it. */
  predicate Held(w: World, j: nat) {
    exists t :: t in w.ticks && j in w.ticks[t].todo
  }

  // ---- A tick runs what it holds -----------------------------------------

  /** Steps of one tick alone. */
  predicate StepsOf(steps: seq<Step>, t: nat) {
    forall s <- steps :: s == JobStart(t) || s == JobEnd(t, true)
  }

  predicate NoTickStart(steps: seq<Step>) {
    forall s <- steps :: !s.TickStart?
  }

  lemma RunPrepended(w: World, s: Step, rest: seq<Step>)
    ensures Run(w, [s] + rest) == Run(Next(w, s), rest)
    decreases |rest|
  {
    hide Next;
    var all := [s] + rest;
    if rest == [] {
      assert all == [s] && [s][..0] == [];
    } else {
      assert all[..|all| - 1] == [s] + rest[..|rest| - 1];
      RunPrepended(w, s, rest[..|rest| - 1]);
    }
  }

  /** One step of a tick on its way to a job it holds. */
  lemma OwnStep(w: World, t: nat, j: nat, s: Step)
    requires Kept(w) && t in w.ticks && j in w.ticks[t].todo
    requires s == if w.ticks[t].current.Some? then JobEnd(t, true) else JobStart(t)
    ensures var n := Next(w, s);
      && j < |w.db.jobs| && |n.runs| == |w.runs| == |n.db.jobs| == |w.db.jobs|
      && n.handlers == w.handlers && n.db.jobs[j].kind == w.db.jobs[j].kind
      && (forall u <- w.ticks :: u != t ==> u in n.ticks && n.ticks[u] == w.ticks[u])
      && t in n.ticks
      && if w.ticks[t].current.Some? then n.ticks[t] == Tick(w.ticks[t].todo, None) && n.runs == w.runs
         else && n.ticks[t].todo == w.ticks[t].todo[1..]
              && (if w.ticks[t].todo[0] != j then n.runs[j] == w.runs[j]
                  else w.db.jobs[j].kind in w.handlers ==> n.runs[j] == w.runs[j] + 1)
  {
    hide RowKept, OneLive, Current, NextOccurrence;
  }

  /** A tick that holds a job gets to run it, once more than it had run, with no other tick disturbed. */
  lemma {:induction false} HeldJobRuns(w: World, t: nat, j: nat) returns (steps: seq<Step>)
    requires Kept(w) && t in w.ticks && j in w.ticks[t].todo
    requires j < |w.db.jobs| && w.db.jobs[j].kind in w.handlers
    ensures var n := Run(w, steps);
      && StepsOf(steps, t) && RunsOf(n, j) == RunsOf(w, j) + 1
      && j < |n.db.jobs| && n.db.jobs[j].kind == w.db.jobs[j].kind && n.handlers == w.handlers
      && forall u <- w.ticks :: u != t ==> u in n.ticks && n.ticks[u] == w.ticks[u]
    decreases |w.ticks[t].todo|, w.ticks[t].current.Some?
  {
    hide Kept, Next;
    var s := if w.ticks[t].current.Some? then JobEnd(t, true) else JobStart(t);
    var n := Next(w, s);
    OwnStep(w, t, j, s);
    StepKept(w, s);
    if w.ticks[t].current.None? && w.ticks[t].todo[0] == j {
      steps := [s];
      RunPrepended(w, s, []);
      assert [s] + [] == [s];
    } else {
      var rest := HeldJobRuns(n, t, j);
      RunPrepended(w, s, rest);
      steps := [s] + rest;
    }
  }

  // ---- Cancelled jobs -----------------------------------------------------

  lemma CancelledIsReminder(w: World, j: nat)
    requires Kept(w) && j < |w.db.jobs| && w.db.jobs[j].status == JobCancelled
    ensures w.db.jobs[j].kind == REMINDER && w.db.jobs[j].recurrence.None?
  {
    hide OneLive, TicksKept, Current;
    assert RowKept(w.db.jobs[j]);
  }

  lemma StepQuiet(w: World, s: Step, j: nat)
    requires Kept(w) && j < |w.db.jobs| && w.db.jobs[j].status == JobCancelled && !Held(w, j)
    ensures var n := Next(w, s);
      j < |n.db.jobs| && n.db.jobs[j].status == JobCancelled && !Held(n, j) && RunsOf(n, j) == RunsOf(w, j)
  {
    hide RowKept, OneLive, Current, NextOccurrence, SelectDue, IsPendingList, Apply, Torn, AnyPending, Start, End;
    var n := Next(w, s);
    CancelledIsReminder(w, j);
    match s
    case Command(c, env) => CommandEvolves(w.db, c, env); assert JobEvolves(w.db.jobs[j], Apply(w.db, c, env).jobs[j]);
    case CrashIn(tear, env) =>
      TearEvolves(w.db, tear, env);
      assert JobEvolves(w.db.jobs[j], Torn(w.db, tear, env).jobs[j]);
    case TickStart(order) => if IsPendingList(w.db.jobs, order) { DueContents(w.db.jobs, w.now, order); }
    case JobStart(t) => if t in w.ticks && w.ticks[t].current.None? && w.ticks[t].todo != [] { StartQuiet(w, t, j); }
    case JobEnd(t, ok) => if t in w.ticks && w.ticks[t].current.Some? { EndQuiet(w, t, ok, j); }
    case _ =>
  }

  lemma StartQuiet(w: World, t: nat, j: nat)
    requires Kept(w) && j < |w.db.jobs| && !Held(w, j) && t in w.ticks && w.ticks[t].todo != []
    ensures var n := Start(w, t);
      j < |n.db.jobs| && n.db.jobs[j] == w.db.jobs[j] && !Held(n, j) && RunsOf(n, j) == RunsOf(w, j)
  {
    hide RowKept, OneLive, Current;
    assert w.ticks[t].todo[0] in w.ticks[t].todo;
    forall u | u in Start(w, t).ticks ensures j !in Start(w, t).ticks[u].todo {
      assert j !in w.ticks[u].todo;
    }
  }

  lemma EndQuiet(w: World, t: nat, ok: bool, j: nat)
    requires Kept(w) && j < |w.db.jobs| && !Held(w, j) && w.db.jobs[j].recurrence.None?
    requires t in w.ticks && w.ticks[t].current.Some? && w.ticks[t].current.value < |w.db.jobs|
    ensures var n := End(w, t, ok);
      j < |n.db.jobs| && n.db.jobs[j].status == w.db.jobs[j].status && !Held(n, j) && RunsOf(n, j) == RunsOf(w, j)
  {
    hide RowKept, OneLive, Current, NextOccurrence;
    forall u | u in End(w, t, ok).ticks ensures j !in End(w, t, ok).ticks[u].todo {
      assert j !in w.ticks[u].todo;
    }
  }

  /** A cancelled job that no tick holds stays cancelled and never runs again. */
  lemma {:induction false} QuietForever(w: World, steps: seq<Step>, j: nat)
    requires Kept(w) && j < |w.db.jobs| && w.db.jobs[j].status == JobCancelled && !Held(w, j)
    ensures var n := Run(w, steps);
      j < |n.db.jobs| && n.db.jobs[j].status == JobCancelled && !Held(n, j) && RunsOf(n, j) == RunsOf(w, j)
  {
    hide Kept, Next, Held;
    if steps != [] {
      var before := steps[..|steps| - 1];
      QuietForever(w, before, j);
      RunKept(w, before);
      StepQuiet(Run(w, before), steps[|steps| - 1], j);
    }
  }

  /**
   * After any run, a cancelled job can still run if and only if a tick in
   * progress has read it and not started it, since its status is not read again.
   */
  lemma CancelledRunsIff(now: int, handlers: set<string>, past: seq<Step>, j: nat)
    requires j < |Run(Init(now, handlers), past).db.jobs|
    requires Run(Init(now, handlers), past).db.jobs[j].status == JobCancelled && REMINDER in handlers
    ensures var w := Run(Init(now, handlers), past);
      (exists steps :: RunsOf(Run(w, steps), j) > RunsOf(w, j)) <==> Held(w, j)
  {
    hide Kept, Run;
    InitKept(now, handlers);
    RunKept(Init(now, handlers), past);
    HandlersStay(Init(now, handlers), past);
    var w := Run(Init(now, handlers), past);
    CancelledIsReminder(w, j);
    if Held(w, j) {
      var t :| t in w.ticks && j in w.ticks[t].todo;
      var steps := HeldJobRuns(w, t, j);
    } else {
      forall steps ensures RunsOf(Run(w, steps), j) == RunsOf(w, j) {
        QuietForever(w, steps, j);
      }
    }
  }

  lemma {:induction false} HandlersStay(w: World, steps: seq<Step>)
    ensures Run(w, steps).handlers == w.handlers
  {
    hide Apply, NextOccurrence, SelectDue, AnyPending, IsPendingList, Torn;
    if steps != [] {
      HandlersStay(w, steps[..|steps| - 1]);
    }
  }

  // ---- One-shot jobs ------------------------------------------------------

  /** A tick starts and reads a due job that another tick holds. */
  predicate Overlaps(w: World, s: Step, j: nat) {
    && s.TickStart? && IsPendingList(w.db.jobs, s.order)
    && j < |w.db.jobs| && IsDue(w.db.jobs[j], w.now) && Held(w, j)
  }

  /** No tick of the run starts while the job is due and held by another. */
  predicate SerialFor(w: World, steps: seq<Step>, j: nat) {
    steps == [] ||
    var before := steps[..|steps| - 1];
    SerialFor(w, before, j) && !Overlaps(Run(w, before), steps[|steps| - 1], j)
  }

  /** A one-shot job that is pending or held has not run, and at most one tick holds it. */
  predicate OnceFor(w: World, j: nat) {
    j < |w.db.jobs| && w.db.jobs[j].kind == REMINDER ==>
      && RunsOf(w, j) <= 1
      && (w.db.jobs[j].status == JobPending || Held(w, j) ==> RunsOf(w, j) == 0)
      && (forall t <- w.ticks, u <- w.ticks :: j in w.ticks[t].todo && j in w.ticks[u].todo ==> t == u)
  }

  lemma NewRowsAreNotHeld(w: World, j: nat)
    requires Kept(w) && j >= |w.db.jobs|
    ensures !Held(w, j) && RunsOf(w, j) == 0
  {
    hide RowKept, OneLive, Current;
  }

  lemma EvolvingOnce(w: World, db: Db, j: nat)
    requires Kept(w) && OnceFor(w, j) && JobsEvolve(w.db.jobs, db.jobs)
    ensures OnceFor(AfterCommand(w, db), j)
  {
    hide RowKept, OneLive, Current, TicksKept;
    if j < |w.db.jobs| {
      assert JobEvolves(w.db.jobs[j], db.jobs[j]);
    } else {
      NewRowsAreNotHeld(w, j);
    }
  }

  lemma StartOnce(w: World, t: nat, j: nat)
    requires Kept(w) && OnceFor(w, j) && t in w.ticks && w.ticks[t].todo != []
    ensures OnceFor(Start(w, t), j)
  {
    hide RowKept, OneLive, Current;
    var n, todo := Start(w, t), w.ticks[t].todo;
    assert todo[0] in todo;
    forall u | u in n.ticks && j in n.ticks[u].todo ensures j in w.ticks[u].todo && (u == t ==> j != todo[0]) {
      if u == t {
        var k :| 0 <= k < |todo| - 1 && todo[1..][k] == j;
        assert todo[k + 1] == j;
      }
    }
  }

  lemma EndOnce(w: World, t: nat, ok: bool, j: nat)
    requires Kept(w) && OnceFor(w, j)
    requires t in w.ticks && w.ticks[t].current.Some? && w.ticks[t].current.value < |w.db.jobs|
    ensures OnceFor(End(w, t, ok), j)
  {
    hide OneLive, Current, NextOccurrence;
    var n, id := End(w, t, ok), w.ticks[t].current.value;
    assert RowKept(w.db.jobs[id]);
    forall u | u in n.ticks ensures u in w.ticks && n.ticks[u].todo == w.ticks[u].todo {
    }
  }

  lemma TickStartOnce(w: World, order: seq<nat>, j: nat)
    requires Kept(w) && OnceFor(w, j) && IsPendingList(w.db.jobs, order) && !Overlaps(w, TickStart(order), j)
    ensures OnceFor(StartTick(w, order), j)
  {
    hide RowKept, OneLive, Current, SelectDue;
    var n := StartTick(w, order);
    DueContents(w.db.jobs, w.now, order);
    forall u | u in n.ticks ensures u == w.nextTick || (u in w.ticks && n.ticks[u] == w.ticks[u]) {
    }
  }

  lemma StepOnce(w: World, s: Step, j: nat)
    requires Kept(w) && OnceFor(w, j) && !Overlaps(w, s, j)
    ensures OnceFor(Next(w, s), j)
  {
    hide Kept, OnceFor, Apply, Torn, Start, End, StartTick, AfterCommand, IsPendingList, JobsEvolve, Crashed,
         Counted, AnyPending;
    match s
    case Command(c, env) =>
      CommandEvolves(w.db, c, env);
      EvolvingOnce(w, Apply(w.db, c, env), j);
    case Elapse(ms) => SameTablesOnce(w, Next(w, s), j);
    case TickStart(order) => if IsPendingList(w.db.jobs, order) { TickStartOnce(w, order, j); }
    case JobStart(t) => if t in w.ticks && w.ticks[t].todo != [] { StartOnce(w, t, j); }
    case JobEnd(t, ok) =>
      if t in w.ticks && w.ticks[t].current.Some? && w.ticks[t].current.value < |w.db.jobs| { EndOnce(w, t, ok, j); }
    case TickEnd(t) => FewerTicksOnce(w, Next(w, s), j);
    case Crash => CrashOnce(w, j);
    case CrashIn(tear, env) =>
      TearEvolves(w.db, tear, env);
      EvolvedGrow(w.db.jobs, Torn(w.db, tear, env).jobs);
      EvolvingOnce(w, Torn(w.db, tear, env), j);
      CrashOnce(AfterCommand(w, Torn(w.db, tear, env)), j);
    case CrashInEnd(t) =>
      if t in w.ticks && w.ticks[t].current.Some? && w.ticks[t].current.value < |w.db.jobs| {
        CountedOnce(w, t, j);
        CrashOnce(Counted(w, t), j);
      }
    case Seed(kind, rule, at) => SeedOnce(w, kind, rule, at, j);
  }

  lemma CountedOnce(w: World, t: nat, j: nat)
    requires OnceFor(w, j) && t in w.ticks && w.ticks[t].current.Some? && w.ticks[t].current.value < |w.db.jobs|
    ensures OnceFor(Counted(w, t), j)
  {
    hide Held;
    assert Held(Counted(w, t), j) == Held(w, j) by { SameTicksHeld(w, Counted(w, t), j); }
  }

  lemma SameTicksHeld(a: World, b: World, j: nat)
    requires a.ticks == b.ticks
    ensures Held(a, j) == Held(b, j)
  {
  }

  lemma EvolvedGrow(a: seq<Job>, b: seq<Job>)
    requires JobsEvolve(a, b)
    ensures |a| <= |b|
  {
  }

  lemma SameTablesOnce(w: World, n: World, j: nat)
    requires OnceFor(w, j) && n.db == w.db && n.runs == w.runs && n.ticks == w.ticks
    ensures OnceFor(n, j)
  {
  }

  lemma FewerTicksOnce(w: World, n: World, j: nat)
    requires OnceFor(w, j) && n.db == w.db && n.runs == w.runs
    requires forall t <- n.ticks :: t in w.ticks && n.ticks[t] == w.ticks[t]
    ensures OnceFor(n, j)
  {
  }

  lemma CrashOnce(w: World, j: nat)
    requires OnceFor(w, j)
    ensures OnceFor(Crashed(w), j)
  {
    hide Current;
  }

  lemma SeedOnce(w: World, kind: string, rule: RecurrenceRule, firstRunAt: int, j: nat)
    requires OnceFor(w, j)
    ensures OnceFor(Next(w, Seed(kind, rule, firstRunAt)), j)
  {
  }

  lemma {:induction false} RunOnce(w: World, steps: seq<Step>, j: nat)
    requires Kept(w) && OnceFor(w, j) && SerialFor(w, steps, j)
    ensures OnceFor(Run(w, steps), j)
  {
    hide Kept, OnceFor, Overlaps, Next;
    if steps != [] {
      var before := steps[..|steps| - 1];
      RunOnce(w, before, j);
      RunKept(w, before);
      StepOnce(Run(w, before), steps[|steps| - 1], j);
    }
  }

  lemma {:induction false} NoStartIsSerial(w: World, steps: seq<Step>, j: nat)
    requires NoTickStart(steps)
    ensures SerialFor(w, steps, j)
  {
    if steps != [] {
      NoStartIsSerial(w, steps[..|steps| - 1], j);
    }
  }

  lemma {:induction false} SerialPrefix(w: World, steps: seq<Step>, n: nat, j: nat)
    requires SerialFor(w, steps, j) && n <= |steps|
    ensures SerialFor(w, steps[..n], j)
  {
    hide Overlaps;
    if n < |steps| {
      SerialPrefix(w, steps[..|steps| - 1], n, j);
      assert steps[..|steps| - 1][..n] == steps[..n];
    } else {
      assert steps[..n] == steps;
    }
  }

  /** The first start that overlaps. */
  lemma {:induction false} OverlapOf(w: World, steps: seq<Step>, j: nat) returns (n: nat)
    requires !SerialFor(w, steps, j)
    ensures n < |steps| && Overlaps(Run(w, steps[..n]), steps[n], j)
  {
    hide Overlaps;
    var last := |steps| - 1;
    if SerialFor(w, steps[..last], j) {
      n := last;
    } else {
      n := OverlapOf(w, steps[..last], j);
      assert steps[..last][..n] == steps[..n];
    }
  }

  /** Two ticks that hold the same job get to run it twice, with no further tick started. */
  lemma SharedJobRunsTwice(w: World, t: nat, u: nat, j: nat) returns (more: seq<Step>)
    requires Kept(w) && t in w.ticks && u in w.ticks && t != u && j in w.ticks[t].todo && j in w.ticks[u].todo
    requires j < |w.db.jobs| && w.db.jobs[j].kind in w.handlers
    ensures NoTickStart(more) && RunsOf(Run(w, more), j) == RunsOf(w, j) + 2
  {
    hide Kept, Run;
    var first := HeldJobRuns(w, t, j);
    RunKept(w, first);
    var second := HeldJobRuns(Run(w, first), u, j);
    RunConcat(w, first, second);
    more := first + second;
  }

  /** Nothing stops a tick from starting during another: it reads every due job the other holds. */
  lemma OverlapShares(w: World, s: Step, j: nat)
    requires Kept(w) && Overlaps(w, s, j)
    ensures var n := Next(w, s);
      && w.nextTick in n.ticks && j in n.ticks[w.nextTick].todo
      && exists t :: t in n.ticks && t != w.nextTick && j in n.ticks[t].todo
  {
    hide RowKept, OneLive, Current, SelectDue;
    DueContents(w.db.jobs, w.now, s.order);
    var t :| t in w.ticks && j in w.ticks[t].todo;
    assert Next(w, s).ticks[t] == w.ticks[t];
  }

  lemma KindsLater(w: World, steps: seq<Step>, n: nat, j: nat)
    requires Kept(w) && n <= |steps| && j < |Run(w, steps[..n]).db.jobs|
    ensures j < |Run(w, steps).db.jobs| && Run(w, steps).db.jobs[j].kind == Run(w, steps[..n]).db.jobs[j].kind
  {
    hide Kept, Run;
    RunKept(w, steps[..n]);
    RunGrows(Run(w, steps[..n]), steps[n..], j);
    RunConcat(w, steps[..n], steps[n..]);
    assert steps[..n] + steps[n..] == steps;
  }

  /** The job runs at most once, along the run and from every point of it, as long as no further tick starts. */
  ghost predicate AtMostOnce(w: World, steps: seq<Step>, j: nat) {
    forall n, more :: 0 <= n <= |steps| && NoTickStart(more) && j < |Run(w, steps[..n]).db.jobs|
      ==> RunsOf(Run(Run(w, steps[..n]), more), j) <= 1
  }

  /**
   * A one-shot job runs at most once, across crashes and restarts and in
   * whatever way the ticks of the run go on, if and only if none of them starts
   * while the job is due and another tick holds it.
   */
  lemma OneShotRunsOnceIff(now: int, handlers: set<string>, steps: seq<Step>, j: nat)
    requires j < |Run(Init(now, handlers), steps).db.jobs|
    requires Run(Init(now, handlers), steps).db.jobs[j].kind == REMINDER && REMINDER in handlers
    ensures AtMostOnce(Init(now, handlers), steps, j) <==> SerialFor(Init(now, handlers), steps, j)
  {
    hide Kept, Run, OnceFor, SerialFor, Overlaps;
    var w := Init(now, handlers);
    InitKept(now, handlers);
    if SerialFor(w, steps, j) {
      forall n, more | 0 <= n <= |steps| && NoTickStart(more) && j < |Run(w, steps[..n]).db.jobs|
        ensures RunsOf(Run(Run(w, steps[..n]), more), j) <= 1
      {
        AtMostOnceFrom(now, handlers, steps, n, more, j);
      }
    } else {
      var n := OverlapOf(w, steps, j);
      var more := OverlapRunsTwice(now, handlers, steps, n, j);
    }
  }

  lemma AtMostOnceFrom(now: int, handlers: set<string>, steps: seq<Step>, n: nat, more: seq<Step>, j: nat)
    requires SerialFor(Init(now, handlers), steps, j) && n <= |steps| && NoTickStart(more)
    requires j < |Run(Init(now, handlers), steps[..n]).db.jobs| && j < |Run(Init(now, handlers), steps).db.jobs|
    requires Run(Init(now, handlers), steps).db.jobs[j].kind == REMINDER
    ensures RunsOf(Run(Run(Init(now, handlers), steps[..n]), more), j) <= 1
  {
    hide Kept, Run, SerialFor, Overlaps;
    var w := Init(now, handlers);
    InitKept(now, handlers);
    SerialPrefix(w, steps, n, j);
    RunOnce(w, steps[..n], j);
    RunKept(w, steps[..n]);
    KindsLater(w, steps, n, j);
    var v := Run(w, steps[..n]);
    NoStartIsSerial(v, more, j);
    RunOnce(v, more, j);
    RunGrows(v, more, j);
  }

  lemma OverlapRunsTwice(now: int, handlers: set<string>, steps: seq<Step>, n: nat, j: nat) returns (more: seq<Step>)
    requires n < |steps| && Overlaps(Run(Init(now, handlers), steps[..n]), steps[n], j) && REMINDER in handlers
    requires j < |Run(Init(now, handlers), steps).db.jobs|
    requires Run(Init(now, handlers), steps).db.jobs[j].kind == REMINDER
    ensures NoTickStart(more) && j < |Run(Init(now, handlers), steps[..n + 1]).db.jobs|
    ensures RunsOf(Run(Run(Init(now, handlers), steps[..n + 1]), more), j) >= 2
  {
    hide Kept, Next;
    var w := Init(now, handlers);
    InitKept(now, handlers);
    var v := Run(w, steps[..n]);
    RunKept(w, steps[..n]);
    assert steps[..n + 1][..n] == steps[..n];
    assert Run(w, steps[..n + 1]) == Next(v, steps[n]);
    var o := Next(v, steps[n]);
    OverlapShares(v, steps[n], j);
    StepKept(v, steps[n]);
    StepGrows(v, steps[n], j);
    KindsLater(w, steps, n + 1, j);
    HandlersStay(w, steps[..n + 1]);
    var t :| t in o.ticks && t != v.nextTick && j in o.ticks[t].todo;
    more := SharedJobRunsTwice(o, t, v.nextTick, j);
  }

  lemma {:induction false} SerialIsSerialFor(w: World, steps: seq<Step>, j: nat)
    requires Serial(w, steps)
    ensures SerialFor(w, steps, j)
  {
    if steps != [] {
      SerialIsSerialFor(w, steps[..|steps| - 1], j);
    }
  }

  /** When ticks do not overlap at all, every one-shot job runs at most once ever, across any crashes and restarts. */
  lemma OneShotRunsOnce(now: int, handlers: set<string>, steps: seq<Step>, j: nat)
    requires Serial(Init(now, handlers), steps)
    requires j < |Run(Init(now, handlers), steps).db.jobs|
    requires Run(Init(now, handlers), steps).db.jobs[j].recurrence.None?
    ensures var w := Run(Init(now, handlers), steps);
      RunsOf(w, j) <= 1 && (w.db.jobs[j].status == JobPending ==> RunsOf(w, j) == 0)
  {
    hide Run, TicksKept, OneLive, Current, Serial, SerialFor;
    var w := Init(now, handlers);
    InitKept(now, handlers);
    SerialIsSerialFor(w, steps, j);
    RunOnce(w, steps, j);
    RunKept(w, steps);
    assert RowKept(Run(w, steps).db.jobs[j]);
  }

  // ---- Runs that show both -------------------------------------------------

  lemma RunPair(w: World, a: Step, b: Step)
    ensures Run(w, [a, b]) == Next(Next(w, a), b)
  {
    hide Next;
    assert [a, b][..1] == [a] && [a][..0] == [];
    assert Run(w, [a]) == Next(w, a);
  }

  /** Two ticks read a lone due reminder. */
  lemma ReadTwice(w: World)
    requires w.db.jobs == [Job(REMINDER, PointReminder(0, "x"), 0, None, JobPending, 0, None)]
    requires w.now == 0 && w.ticks == map[] && w.nextTick == 0 && |w.runs| == 1
    ensures var n := Next(Next(w, TickStart([0])), TickStart([0]));
      && n.db == w.db && n.runs == w.runs && n.handlers == w.handlers
      && n.ticks == map[0 := Tick([0], None), 1 := Tick([0], None)]
  {
    assert SelectDue(w.db.jobs, 0, [0]) == [0] by {
      assert [0][..0] == [];
    }
    var w2 := Next(w, TickStart([0]));
    assert w2 == w.(ticks := map[0 := Tick([0], None)], nextTick := 1);
  }

  /** From the start: a reminder is captured, due, read by two ticks, and runs twice. */
  lemma ReminderRunsTwice(env: Env) returns (more: seq<Step>)
    ensures var capture := Command(Capture(TriageItem(Lembrete, "x", false, Resolved(0)), 0, 0), env);
      RunsOf(Run(Init(0, {REMINDER}), [capture] + ([TickStart([0]), TickStart([0])] + more)), 0) == 2
    ensures NoTickStart(more)
  {
    hide Run, Next, Kept;
    var capture := Command(Capture(TriageItem(Lembrete, "x", false, Resolved(0)), 0, 0), env);
    var w0 := Init(0, {REMINDER});
    var w := Next(w0, capture);
    InitKept(0, {REMINDER});
    StepKept(w0, capture);
    CapturedReminder(env);
    ReadTwice(w);
    RunPair(w, TickStart([0]), TickStart([0]));
    RunKept(w, [TickStart([0]), TickStart([0])]);
    more := SharedJobRunsTwice(Next(Next(w, TickStart([0])), TickStart([0])), 0, 1, 0);
    RunPrepended(w0, capture, [TickStart([0]), TickStart([0])] + more);
    RunConcat(w, [TickStart([0]), TickStart([0])], more);
  }

  lemma CapturedReminder(env: Env)
    ensures var capture := Command(Capture(TriageItem(Lembrete, "x", false, Resolved(0)), 0, 0), env);
      var w := Next(Init(0, {REMINDER}), capture);
      && w.db.jobs == [Job(REMINDER, PointReminder(0, "x"), 0, None, JobPending, 0, None)]
      && w.now == 0 && w.handlers == {REMINDER} && w.ticks == map[] && w.nextTick == 0 && w.runs == [0]
  {
  }

  /** An appointment in an hour, with a departure alert ten minutes before it and nothing else in its way. */
  const APPOINTMENT := GoogleEvent("g", "x", Some(3_600_000), None, None)
  const SETTINGS := Env(ChainSettings(0, 0, 10), 0, 0)

  /** The departure alert is in the chain, pending, and due once the appointment has begun. */
  lemma AlertIsPending() returns (j: nat)
    ensures var jobs := Apply(Db([], [], []), SyncEvent(APPOINTMENT), SETTINGS).jobs;
      j < |jobs| && PendingReminderOf(jobs[j], 0) && IsDue(jobs[j], 3_600_000)
  {
    hide Expand, FireTime;
    var e := Event(0, Some("g"), "x", 3_600_000, None, None, 0, false, Ativo);
    ChainContents(3_600_000, 0, SETTINGS.chain, 0);
    DepartureTime();
    var chain := ChainOf(e, SETTINGS);
    assert Reminder(Preparo, 3_000_000) in chain;
    j :| 0 <= j < |chain| && chain[j] == Reminder(Preparo, 3_000_000);
    SyncedOnce(e);
    assert Apply(Db([], [], []), SyncEvent(APPOINTMENT), SETTINGS).jobs[j] == ChainJob(0, e, chain[j]);
  }

  lemma DepartureTime()
    ensures FireTime(Preparo, 3_600_000, 0, SETTINGS.chain) == 3_000_000
  {
  }

  lemma SyncedOnce(e: Event)
    requires e == Event(0, Some("g"), "x", 3_600_000, None, None, 0, false, Ativo)
    ensures var db := Apply(Db([], [], []), SyncEvent(APPOINTMENT), SETTINGS);
      && db.jobs == ChainJobs(0, e, ChainOf(e, SETTINGS)) && db.events == [e.(cadeiaGerada := true)]
      && |db.items| == 1 && db.items[0].status == Ativa
  {
    hide Expand;
    var empty := Db([], [], []);
    assert [] + ChainJobs(0, e, ChainOf(e, SETTINGS)) == ChainJobs(0, e, ChainOf(e, SETTINGS));
  }

  /**
   * From the start: an appointment is synced and begins, a tick reads its alert, its
   * item is dropped, and the alert still runs.
   */
  lemma CancelledAlertRuns() returns (past: seq<Step>, j: nat, more: seq<Step>)
    ensures var w := Run(Init(0, {REMINDER}), past);
      && j < |w.db.jobs| && w.db.jobs[j].status == JobCancelled && RunsOf(w, j) == 0
      && RunsOf(Run(w, more), j) == 1
  {
    hide Run, Apply, Kept, PendingReminderOf, IsDue;
    j := AlertIsPending();
    var w0 := Init(0, {REMINDER});
    var sync, wait := Command(SyncEvent(APPOINTMENT), SETTINGS), Elapse(3_600_000);
    var w2 := Next(Next(w0, sync), wait);
    var order := PendingIds(w2.db.jobs, |w2.db.jobs|);
    var drop := Command(Drop(0), SETTINGS);
    past := [sync, wait] + [TickStart(order), drop];
    RunPair(w0, sync, wait);
    RunPair(w2, TickStart(order), drop);
    RunConcat(w0, [sync, wait], [TickStart(order), drop]);
    InitKept(0, {REMINDER});
    RunKept(w0, past);
    var w := Run(w0, past);
    AlertIsCancelled(w2, order, j);
    HandlersStay(w0, past);
    assert w.db.jobs[j].kind == REMINDER by { CancelledIsReminder(w, j); }
    more := HeldJobRuns(w, 0, j);
  }

  lemma AlertIsCancelled(w2: World, order: seq<nat>, j: nat)
    requires w2 == Next(Next(Init(0, {REMINDER}), Command(SyncEvent(APPOINTMENT), SETTINGS)), Elapse(3_600_000))
    requires order == PendingIds(w2.db.jobs, |w2.db.jobs|)
    requires j < |w2.db.jobs| && PendingReminderOf(w2.db.jobs[j], 0) && IsDue(w2.db.jobs[j], 3_600_000)
    ensures var w := Next(Next(w2, TickStart(order)), Command(Drop(0), SETTINGS));
      && j < |w.db.jobs| && w.db.jobs[j].status == JobCancelled && RunsOf(w, j) == 0
      && 0 in w.ticks && j in w.ticks[0].todo
  {
    hide Expand, SelectDue, PendingIds;
    var e := Event(0, Some("g"), "x", 3_600_000, None, None, 0, false, Ativo);
    SyncedOnce(e);
    PendingIdsList(w2.db.jobs);
    DueContents(w2.db.jobs, w2.now, order);
    var w3 := Next(w2, TickStart(order));
    assert w3.db == w2.db && w3.ticks[0].todo == SelectDue(w2.db.jobs, w2.now, order);
    DroppedAlert(w3.db, e.(cadeiaGerada := true), j);
  }

  lemma PendingIdsList(jobs: seq<Job>)
    ensures IsPendingList(jobs, PendingIds(jobs, |jobs|))
  {
  }

  lemma DroppedAlert(db: Db, e: Event, j: nat)
    requires |db.items| == 1 && db.items[0].status == Ativa && db.events == [e] && e.itemId == 0 && e.status == Ativo
    requires j < |db.jobs| && PendingReminderOf(db.jobs[j], 0)
    ensures var next := Apply(db, Drop(0), SETTINGS);
      |next.jobs| == |db.jobs| && next.jobs[j].status == JobCancelled
  {
  }
}
