/**
 * Changes to the task store over time: commands, crashes inside them, and the
 * scheduler's work. A drop and a move are series of separate statements; every
 * other command is one statement or one transaction.
 */
module StoreChanges {
  import opened Common
  import opened ExpandChain
  import opened TaskTables
  import opened ChainInvariants

  // ---- Crashes inside a command -------------------------------------------

  /** The last statement a drop got to: the item's status, or the event and some of its reminders, in any order. */
  datatype DropPoint = StatusSet | DropCancelling(done: set<nat>)

  /**
   * The last statement a move got to: the item's date, the event and some of its
   * reminders, or the new event and the first of its reminders, its flag unset.
   */
  datatype MovePoint = DateMoved | MoveCancelling(done: set<nat>) | Chaining(added: nat)

  datatype Tear = TornDrop(id: nat, dropPoint: DropPoint) | TornMove(id: nat, dueAt: int, movePoint: MovePoint)

  /** The cancelling loop, having reached the rows in `done`. */
  function CancelSome(jobs: seq<Job>, eventId: nat, done: set<nat>): seq<Job> {
    seq(|jobs|, i requires 0 <= i < |jobs| => if i in done then CancelJob(jobs[i], eventId) else jobs[i])
  }

  function CancelPart(db: Db, eventId: nat, done: set<nat>): Db
    requires eventId < |db.events|
  {
    CancelEvent(db, eventId).(jobs := CancelSome(db.jobs, eventId, done))
  }

  /** The event with its first `added` reminders and no flag yet. */
  function AddPart(db: Db, e: Event, env: Env, added: nat): Db {
    var chain := ChainOf(e, env);
    var reminders := if added <= |chain| then chain[..added] else chain;
    db.(events := db.events + [e], jobs := db.jobs + ChainJobs(|db.events|, e, reminders))
  }

  predicate Accepted(db: Db, tear: Tear) {
    && tear.id < |db.items|
    && CanTransition(db.items[tear.id].status, if tear.TornDrop? then Dropada else Adiada)
  }

  /** The store a crash leaves behind; a command that is refused, or finds no event, is not torn any further. */
  function Torn(db: Db, tear: Tear, env: Env): Db {
    if !Accepted(db, tear) then db
    else
      match tear
      case TornDrop(id, point) =>
        var dropped := SetStatus(db, id, Dropada);
        (match ActiveEventOf(db.events, id)
         case None => dropped
         case Some(event) => if point.StatusSet? then dropped else CancelPart(dropped, event, point.done))
      case TornMove(id, dueAt, point) =>
        var moved := SetSnoozed(db, id, dueAt);
        (match ActiveEventOf(db.events, id)
         case None => moved
         case Some(event) =>
           match point
           case DateMoved => moved
           case MoveCancelling(done) => CancelPart(moved, event, done)
           case Chaining(added) =>
             AddPart(CancelChain(moved, event), Recreated(db.events[event], dueAt), env, added))
  }

  // ---- Changes over time --------------------------------------------------

  /** What the scheduler may do to a row: its progress changes, and a chain reminder is never reopened. */
  predicate JobProgress(a: Job, b: Job) {
    && b.kind == a.kind && b.payload == a.payload && b.recurrence == a.recurrence
    && (a.payload.ChainReminder? ==> b.nextRunAt == a.nextRunAt && (b.status == JobPending ==> a.status == JobPending))
  }

  /** Rows progress, and rows that are no chain reminders may be added. */
  predicate JobsProgress(a: seq<Job>, b: seq<Job>) {
    && |a| <= |b|
    && (forall i :: 0 <= i < |a| ==> JobProgress(a[i], b[i]))
    && (forall i :: |a| <= i < |b| ==> !b[i].payload.ChainReminder?)
  }

  /** A change to the store: a command, one the process died in, or the scheduler at work on the jobs. */
  datatype Change = Issued(command: Command, env: Env) | Died(tear: Tear, env: Env) | Progress(jobs: seq<Job>)

  function Changed(db: Db, x: Change): Db {
    match x
    case Issued(c, env) => Apply(db, c, env)
    case Died(tear, env) => Torn(db, tear, env)
    case Progress(jobs) => if JobsProgress(db.jobs, jobs) then db.(jobs := jobs) else db
  }

  function RunChanges(db: Db, log: seq<Change>): Db {
    if log == [] then db else Changed(RunChanges(db, log[..|log| - 1]), log[|log| - 1])
  }

  // ---- What all of them keep ----------------------------------------------

  /** Events belong to items, an item has one active event at most, and both unique indexes hold. */
  predicate Sound(db: Db) {
    && OneActive(db.events) && SourcesUnique(db.items) && GcalUnique(db.events)
    && forall i :: 0 <= i < |db.events| ==> db.events[i].itemId < |db.items|
  }

  lemma ConsistentIsSound(db: Db)
    requires StoreInv(db)
    ensures Sound(db)
  {
    hide OneActive, RemindersLive, SourcesUnique, GcalUnique;
  }

  lemma SoundItem(db: Db, item: Item)
    requires Sound(db) && !SourceTaken(db.items, item.sourceMessageId, item.sourceItemIndex)
    ensures Sound(db.(items := db.items + [item])) && NoActiveEvent(db.events, |db.items|)
  {
    hide OneActive, GcalUnique;
  }

  lemma SoundStatus(db: Db, id: nat, item: Item)
    requires Sound(db) && id < |db.items|
    requires item.sourceMessageId == db.items[id].sourceMessageId
    requires item.sourceItemIndex == db.items[id].sourceItemIndex
    ensures Sound(db.(items := db.items[id := item]))
  {
    hide OneActive, GcalUnique;
  }

  lemma SoundCancel(db: Db, id: nat, jobs: seq<Job>)
    requires Sound(db) && id < |db.events|
    ensures Sound(CancelEvent(db, id).(jobs := jobs))
  {
    hide SourcesUnique;
  }

  lemma SoundEvent(db: Db, e: Event, jobs: seq<Job>)
    requires Sound(db) && e.itemId < |db.items| && NoActiveEvent(db.events, e.itemId)
    requires e.gcalId.Some? ==> !GcalTaken(db.events, e.gcalId.value)
    ensures Sound(db.(events := db.events + [e], jobs := jobs))
  {
    hide SourcesUnique;
  }

  lemma SoundAppointment(db: Db, e: Event, env: Env)
    requires Sound(db) && e.itemId < |db.items| && NoActiveEvent(db.events, e.itemId)
    requires e.gcalId.Some? ==> !GcalTaken(db.events, e.gcalId.value)
    ensures Sound(AddAppointment(db, e, env))
  {
    hide Sound, Expand, NoActiveEvent, GcalTaken;
    var next := AddAppointment(db, e, env);
    SoundEvent(db, e.(cadeiaGerada := true), next.jobs);
    assert next == db.(events := db.events + [e.(cadeiaGerada := true)], jobs := next.jobs);
  }

  lemma SoundParts(db: Db)
    requires Sound(db)
    ensures OneActive(db.events)
    ensures forall i :: 0 <= i < |db.events| ==> db.events[i].itemId < |db.items|
  {
  }

  /** The active event of an item, if it has one, is cancelled with some or all of its reminders. */
  lemma SoundDrop(db: Db, itemId: nat, id: nat, jobs: seq<Job>)
    requires Sound(db) && ActiveEventOf(db.events, itemId) == Some(id)
    ensures var next := CancelEvent(db, id).(jobs := jobs);
      Sound(next) && NoActiveEvent(next.events, itemId) && next.items == db.items && id < |db.events|
      && db.events[id].itemId == itemId < |db.items|
  {
    hide Sound, ActiveEventBelow;
    SoundParts(db);
    ActiveFound(db.events, itemId);
    SoundCancel(db, id, jobs);
  }

  lemma DropSound(db: Db, itemId: nat)
    requires Sound(db)
    ensures Sound(AfterDrop(db, itemId))
  {
    hide Sound, ActiveEventBelow;
    if ActiveEventOf(db.events, itemId).Some? {
      SoundDrop(db, itemId, ActiveEventOf(db.events, itemId).value,
                CancelPendingJobs(db.jobs, ActiveEventOf(db.events, itemId).value));
    }
  }

  lemma MoveSound(db: Db, itemId: nat, dueAt: int, env: Env)
    requires Sound(db)
    ensures Sound(AfterReschedule(db, itemId, dueAt, env))
  {
    hide Sound, ActiveEventBelow, AddAppointment, CancelPendingJobs;
    if ActiveEventOf(db.events, itemId).Some? {
      var id := ActiveEventOf(db.events, itemId).value;
      SoundDrop(db, itemId, id, CancelPendingJobs(db.jobs, id));
      SoundAppointment(CancelChain(db, id), Recreated(db.events[id], dueAt), env);
    }
  }

  lemma GoogleSound(db: Db, google: GoogleEvent, startAt: int, message: Option<nat>, env: Env)
    requires Sound(db)
    ensures var r := AddGoogleAppointment(db, google, startAt, message, env);
      r.Success? ==> Sound(r.value)
  {
    hide Sound, AddAppointment, GcalTaken, NoActiveEvent;
    var item := Item(Compromisso, google.title, Ativa, None, Some(startAt), 0, message, None);
    SoundItem(db, item);
    if !GcalTaken(db.events, google.gcalId) {
      SoundAppointment(db.(items := db.items + [item]),
        Event(|db.items|, Some(google.gcalId), google.title, startAt, google.endAt, google.location,
              env.deslocamentoMinDefault, false, Ativo), env);
    }
  }

  lemma CaptureSound(db: Db, item: TriageItem, message: nat, index: nat, env: Env)
    requires Sound(db)
    ensures var r := CaptureOne(db, item, message, index, env);
      r.Success? ==> Sound(r.value)
  {
    hide Sound, AddAppointment, SourceTaken, NoActiveEvent;
    if !SourceTaken(db.items, Some(message), Some(index)) {
      SoundItem(db, CapturedItem(item, message, index));
      var created := db.(items := db.items + [CapturedItem(item, message, index)]);
      if item.due.Resolved? && item.kind == Compromisso {
        SoundAppointment(created,
          Event(|db.items|, None, item.title, item.due.at, None, None, env.deslocamentoMinDefault, false, Ativo), env);
      }
      SoundJobs(created, CaptureOne(db, item, message, index, env).value.jobs);
    }
  }

  lemma SoundJobs(db: Db, jobs: seq<Job>)
    requires Sound(db)
    ensures Sound(db.(jobs := jobs))
  {
  }

  lemma SoundGcalId(db: Db, eventId: nat, gcalId: string)
    requires Sound(db) && eventId < |db.events|
    requires forall i :: 0 <= i < |db.events| && i != eventId ==> db.events[i].gcalId != Some(gcalId)
    ensures Sound(db.(events := db.events[eventId := db.events[eventId].(gcalId := Some(gcalId))]))
  {
    hide SourcesUnique;
  }

  lemma CommandSound(db: Db, c: Command, env: Env)
    requires Sound(db)
    ensures Sound(Apply(db, c, env))
  {
    hide Sound, AfterDrop, AfterReschedule, AddGoogleAppointment, CaptureOne, BrainEventExists;
    match c
    case CreateItem(kind, title, ambiguous, priority, dueAt) =>
      SoundItem(db, Item(kind, title, if ambiguous then Inbox else Ativa, priority, dueAt, 0, None, None));
    case Complete(id) => if id < |db.items| { SoundStatus(db, id, db.items[id].(status := Feita)); }
    case Archive(id) => if id < |db.items| { SoundStatus(db, id, db.items[id].(status := Arquivada)); }
    case Drop(id) =>
      if id < |db.items| {
        SoundStatus(db, id, db.items[id].(status := Dropada));
        DropSound(SetStatus(db, id, Dropada), id);
      }
    case Snooze(id, dueAt) =>
      if id < |db.items| && dueAt.Some? {
        var moved := SetSnoozed(db, id, dueAt.value);
        SoundStatus(db, id, moved.items[id]);
        MoveSound(moved, id, dueAt.value, env);
      }
    case Capture(item, message, index) => CaptureSound(db, item, message, index, env);
    case SyncEvent(google) => if google.startAt.Some? { GoogleSound(db, google, google.startAt.value, None, env); }
    case BrainEvent(google, message) =>
      if google.startAt.Some? { GoogleSound(db, google, google.startAt.value, Some(message), env); }
    case SetGcalId(eventId, gcalId) =>
      if eventId < |db.events|
         && forall i :: 0 <= i < |db.events| && i != eventId ==> db.events[i].gcalId != Some(gcalId)
      {
        SoundGcalId(db, eventId, gcalId);
      }
  }

  lemma TearSound(db: Db, tear: Tear, env: Env)
    requires Sound(db)
    ensures Sound(Torn(db, tear, env))
  {
    hide Sound, ActiveEventBelow, CancelSome, CancelPendingJobs, ChainOf, ChainJobs, CanTransition;
    if Accepted(db, tear) {
      var found := ActiveEventOf(db.events, tear.id);
      match tear
      case TornDrop(id, point) =>
        var dropped := SetStatus(db, id, Dropada);
        SoundStatus(db, id, dropped.items[id]);
        if found.Some? && point.DropCancelling? {
          SoundDrop(dropped, id, found.value, CancelSome(db.jobs, found.value, point.done));
        }
      case TornMove(id, dueAt, point) =>
        var moved := SetSnoozed(db, id, dueAt);
        SoundStatus(db, id, moved.items[id]);
        if found.Some? {
          match point
          case DateMoved =>
          case MoveCancelling(done) => SoundDrop(moved, id, found.value, CancelSome(db.jobs, found.value, done));
          case Chaining(added) =>
            SoundDrop(moved, id, found.value, CancelPendingJobs(db.jobs, found.value));
            var e := Recreated(db.events[found.value], dueAt);
            var cancelled := CancelChain(moved, found.value);
            SoundEvent(cancelled, e, AddPart(cancelled, e, env, added).jobs);
        }
    }
  }

  /** A change of any kind, a command cut short at any statement included, keeps the tables sound. */
  lemma ChangeSound(db: Db, x: Change)
    requires Sound(db)
    ensures Sound(Changed(db, x))
  {
    hide Sound, Apply, Torn, JobsProgress;
    match x
    case Issued(c, env) => CommandSound(db, c, env);
    case Died(tear, env) => TearSound(db, tear, env);
    case Progress(jobs) => SoundJobs(db, jobs);
  }

  lemma {:induction false} ChangesSound(db: Db, log: seq<Change>)
    requires Sound(db)
    ensures Sound(RunChanges(db, log))
  {
    hide Sound, Changed;
    if log != [] {
      ChangesSound(db, log[..|log| - 1]);
      ChangeSound(RunChanges(db, log[..|log| - 1]), log[|log| - 1]);
    }
  }

  /** Items keep their message and position for good. */
  predicate KeepsSources(a: seq<Item>, b: seq<Item>) {
    && |a| <= |b|
    && forall i :: 0 <= i < |a| ==>
         a[i].sourceMessageId == b[i].sourceMessageId && a[i].sourceItemIndex == b[i].sourceItemIndex
  }

  lemma TearKeepsSources(db: Db, tear: Tear, env: Env)
    ensures KeepsSources(db.items, Torn(db, tear, env).items) && |Torn(db, tear, env).items| == |db.items|
  {
    hide ActiveEventBelow, CancelSome, CancelPendingJobs, ChainOf, ChainJobs, CanTransition;
  }

  lemma ChangeKeepsSources(db: Db, x: Change)
    ensures KeepsSources(db.items, Changed(db, x).items)
  {
    hide Expand, ActiveEventBelow, CancelPendingJobs, ChainJobs, JobsProgress, Torn;
    if x.Died? { TearKeepsSources(db, x.tear, x.env); }
  }

  // ---- What keeps the store consistent ------------------------------------

  lemma ProgressKeeps(db: Db, jobs: seq<Job>)
    requires StoreInv(db) && JobsProgress(db.jobs, jobs)
    ensures StoreInv(db.(jobs := jobs))
  {
    hide OneActive, DatesAgree, SourcesUnique, GcalUnique;
    forall i | 0 <= i < |jobs| ensures JobKept(db.events, jobs[i]) {
      if i < |db.jobs| {
        assert JobKept(db.events, db.jobs[i]) && JobProgress(db.jobs[i], jobs[i]);
        ProgressedJobKept(db.events, db.jobs[i], jobs[i]);
      }
    }
  }

  lemma ProgressedJobKept(events: seq<Event>, a: Job, b: Job)
    requires JobKept(events, a) && JobProgress(a, b)
    ensures JobKept(events, b)
  {
  }

  /** A change that no crash cut short keeps the store consistent. */
  lemma ChangeKeeps(db: Db, x: Change)
    requires StoreInv(db) && !x.Died?
    ensures StoreInv(Changed(db, x))
  {
    hide StoreInv, Apply, JobsProgress;
    match x
    case Issued(c, env) => CommandKeeps(db, c, env);
    case Progress(jobs) => if JobsProgress(db.jobs, jobs) { ProgressKeeps(db, jobs); }
  }

  lemma {:induction false} ChangesKeep(db: Db, log: seq<Change>)
    requires StoreInv(db) && forall x <- log :: !x.Died?
    ensures StoreInv(RunChanges(db, log))
  {
    hide StoreInv, Changed;
    if log != [] {
      ChangesKeep(db, log[..|log| - 1]);
      ChangeKeeps(RunChanges(db, log[..|log| - 1]), log[|log| - 1]);
    }
  }
}
