/** What every command on the task store keeps, across items, events and jobs. */
module ChainInvariants {
  import opened Common
  import opened ExpandChain
  import opened TaskTables

  predicate IsActive(events: seq<Event>, id: nat) {
    id < |events| && events[id].status == Ativo
  }

  predicate NoActiveEvent(events: seq<Event>, itemId: nat) {
    forall i :: 0 <= i < |events| && events[i].status == Ativo ==> events[i].itemId != itemId
  }

  /** An item has at most one active event. */
  predicate OneActive(events: seq<Event>) {
    forall i, j :: 0 <= i < j < |events| && events[i].status == Ativo && events[j].status == Ativo
      ==> events[i].itemId != events[j].itemId
  }

  /** An active event starts when its item is due. */
  predicate DatesAgree(items: seq<Item>, events: seq<Event>) {
    forall i :: 0 <= i < |events| ==>
      events[i].itemId < |items|
      && (events[i].status == Ativo ==> items[events[i].itemId].dueAt == Some(events[i].startAt))
  }

  /**
   * A chain job names an event of the table; while pending, that event is active,
   * with the same start, and not yet begun.
   */
  predicate JobKept(events: seq<Event>, job: Job) {
    job.payload.ChainReminder? ==>
      && job.kind == REMINDER && job.recurrence.None?
      && job.payload.eventId < |events|
      && var e := events[job.payload.eventId];
         && job.payload.itemId == e.itemId && job.payload.startAt == e.startAt && job.nextRunAt < e.startAt
         && (job.status == JobPending ==> e.status == Ativo)
  }

  predicate RemindersLive(events: seq<Event>, jobs: seq<Job>) {
    forall i :: 0 <= i < |jobs| ==> JobKept(events, jobs[i])
  }

  /** No two items carry the same message and position. */
  predicate SourcesUnique(items: seq<Item>) {
    forall i, j :: 0 <= i < j < |items| && items[i].sourceMessageId.Some? && items[i].sourceItemIndex.Some?
      ==> items[i].sourceMessageId != items[j].sourceMessageId || items[i].sourceItemIndex != items[j].sourceItemIndex
  }

  /** No two events, cancelled ones included, carry the same Google id. */
  predicate GcalUnique(events: seq<Event>) {
    forall i, j :: 0 <= i < j < |events| && events[i].gcalId.Some? ==> events[i].gcalId != events[j].gcalId
  }

  predicate StoreInv(db: Db) {
    && OneActive(db.events) && DatesAgree(db.items, db.events) && RemindersLive(db.events, db.jobs)
    && SourcesUnique(db.items) && GcalUnique(db.events)
  }

  // ---- Building blocks ----------------------------------------------------

  lemma AddItemKeeps(db: Db, item: Item)
    requires StoreInv(db) && !SourceTaken(db.items, item.sourceMessageId, item.sourceItemIndex)
    ensures StoreInv(db.(items := db.items + [item]))
  {
    hide OneActive, RemindersLive, GcalUnique;
  }

  lemma SetStatusKeeps(db: Db, id: nat, status: ItemStatus)
    requires StoreInv(db) && id < |db.items|
    ensures StoreInv(SetStatus(db, id, status))
  {
    hide OneActive, RemindersLive, GcalUnique;
  }

  lemma AddPlainJobKeeps(db: Db, job: Job)
    requires StoreInv(db) && !job.payload.ChainReminder?
    ensures StoreInv(db.(jobs := db.jobs + [job]))
  {
    hide OneActive, DatesAgree, SourcesUnique, GcalUnique;
  }

  /** The active event found is the only one; when none is found the item has none. */
  lemma ActiveFound(events: seq<Event>, itemId: nat)
    requires OneActive(events)
    ensures var found := ActiveEventOf(events, itemId);
      && (found.None? <==> NoActiveEvent(events, itemId))
      && (found.Some? ==>
          && IsActive(events, found.value) && events[found.value].itemId == itemId
          && NoActiveEvent(events[found.value := events[found.value].(status := Cancelado)], itemId))
  {
    hide ActiveEventBelow;
  }

  lemma CancelChainKeeps(db: Db, id: nat)
    requires StoreInv(db) && IsActive(db.events, id)
    ensures StoreInv(CancelChain(db, id))
  {
    hide SourcesUnique, JobKept;
    var next := CancelChain(db, id);
    forall i | 0 <= i < |next.jobs| ensures JobKept(next.events, next.jobs[i]) {
      assert JobKept(db.events, db.jobs[i]);
      CancelledJobKept(db.events, id, db.jobs[i]);
    }
  }

  lemma CancelledJobKept(events: seq<Event>, id: nat, job: Job)
    requires id < |events| && JobKept(events, job)
    ensures JobKept(events[id := events[id].(status := Cancelado)], CancelJob(job, id))
  {
  }

  /** A new appointment with its chain keeps the store when its item is due at its start and has no active event. */
  lemma AddAppointmentKeeps(db: Db, e: Event, env: Env)
    requires StoreInv(db) && e.status == Ativo && e.itemId < |db.items|
    requires db.items[e.itemId].dueAt == Some(e.startAt)
    requires NoActiveEvent(db.events, e.itemId)
    requires e.gcalId.Some? ==> !GcalTaken(db.events, e.gcalId.value)
    ensures StoreInv(AddAppointment(db, e, env))
  {
    hide Expand, JobKept, SourcesUnique;
    var id := |db.events|;
    var next := AddAppointment(db, e, env);
    var reminders := ChainOf(e, env);
    assert next.events == db.events + [e.(cadeiaGerada := true)];
    forall i, j | 0 <= i < j < |next.events| && next.events[i].status == Ativo && next.events[j].status == Ativo
      ensures next.events[i].itemId != next.events[j].itemId
    {
    }
    forall i | 0 <= i < |next.jobs| ensures JobKept(next.events, next.jobs[i]) {
      if i < |db.jobs| {
        assert JobKept(db.events, db.jobs[i]);
        LargerTableKeepsJob(db.events, e.(cadeiaGerada := true), db.jobs[i]);
      } else {
        var r := reminders[i - |db.jobs|];
        assert r in reminders;
        ChainContents(e.startAt, e.deslocamentoMin, env.chain, env.now);
        NewChainJobKept(next.events, id, e, r);
      }
    }
  }

  lemma LargerTableKeepsJob(events: seq<Event>, e: Event, job: Job)
    requires JobKept(events, job)
    ensures JobKept(events + [e], job)
  {
  }

  lemma NewChainJobKept(events: seq<Event>, id: nat, e: Event, r: Reminder)
    requires id < |events| && events[id] == e.(cadeiaGerada := true) && e.status == Ativo && r.fireAt < e.startAt
    ensures JobKept(events, ChainJob(id, e, r))
  {
  }

  lemma ChainsLeaveItems(db: Db, itemId: nat, dueAt: int, env: Env)
    ensures AfterDrop(db, itemId).items == db.items && AfterReschedule(db, itemId, dueAt, env).items == db.items
  {
    hide Expand, ActiveEventBelow, CancelPendingJobs, ChainJobs;
  }

  // ---- Commands -----------------------------------------------------------

  lemma DroppedKeeps(db: Db, itemId: nat)
    requires StoreInv(db)
    ensures StoreInv(AfterDrop(db, itemId))
    ensures NoActiveEvent(AfterDrop(db, itemId).events, itemId)
  {
    hide StoreInv, CancelChain;
    assert OneActive(db.events) by { InvParts(db); }
    ActiveFound(db.events, itemId);
    match ActiveEventOf(db.events, itemId)
    case None =>
    case Some(id) =>
      CancelChainKeeps(db, id);
      CancelChainEvents(db, id);
  }

  lemma InvParts(db: Db)
    requires StoreInv(db)
    ensures OneActive(db.events) && DatesAgree(db.items, db.events)
  {
  }

  lemma CancelChainEvents(db: Db, id: nat)
    requires id < |db.events|
    ensures CancelChain(db, id).events == db.events[id := db.events[id].(status := Cancelado)]
    ensures CancelChain(db, id).items == db.items
  {
  }

  /** After the item's date is moved, replacing the chain restores the agreement of dates. */
  lemma RescheduledKeeps(db: Db, itemId: nat, dueAt: int, env: Env)
    requires StoreInv(db) && itemId < |db.items|
    ensures StoreInv(AfterReschedule(SetSnoozed(db, itemId, dueAt), itemId, dueAt, env))
  {
    hide StoreInv, CancelChain, AddAppointment;
    InvParts(db);
    ActiveFound(db.events, itemId);
    var moved := SetSnoozed(db, itemId, dueAt);
    match ActiveEventOf(db.events, itemId)
    case None => MoveKeeps(db, itemId, dueAt);
    case Some(id) =>
      var cancelled := CancelChain(db, id);
      CancelChainKeeps(db, id);
      CancelChainEvents(db, id);
      MoveKeeps(cancelled, itemId, dueAt);
      CancelCommutes(db, id, itemId, dueAt);
      AddAppointmentKeeps(CancelChain(moved, id), Recreated(db.events[id], dueAt), env);
  }

  lemma CancelCommutes(db: Db, id: nat, itemId: nat, dueAt: int)
    requires id < |db.events| && itemId < |db.items|
    ensures CancelChain(SetSnoozed(db, itemId, dueAt), id) == SetSnoozed(CancelChain(db, id), itemId, dueAt)
  {
  }

  lemma MoveKeeps(db: Db, itemId: nat, dueAt: int)
    requires StoreInv(db) && itemId < |db.items|
    requires NoActiveEvent(db.events, itemId)
    ensures StoreInv(SetSnoozed(db, itemId, dueAt))
  {
    hide OneActive, RemindersLive, GcalUnique;
  }

  lemma GoogleKeeps(db: Db, google: GoogleEvent, startAt: int, message: Option<nat>, env: Env)
    requires StoreInv(db)
    ensures var r := AddGoogleAppointment(db, google, startAt, message, env);
      r.Success? ==> StoreInv(r.value)
  {
    hide StoreInv, AddAppointment, GcalTaken;
    InvParts(db);
    var item := Item(Compromisso, google.title, Ativa, None, Some(startAt), 0, message, None);
    AddItemKeeps(db, item);
    if !GcalTaken(db.events, google.gcalId) {
      AddAppointmentKeeps(db.(items := db.items + [item]),
        Event(|db.items|, Some(google.gcalId), google.title, startAt, google.endAt, google.location,
              env.deslocamentoMinDefault, false, Ativo), env);
    }
  }

  lemma CaptureKeeps(db: Db, item: TriageItem, message: nat, index: nat, env: Env)
    requires StoreInv(db)
    ensures var r := CaptureOne(db, item, message, index, env);
      r.Success? ==> StoreInv(r.value)
  {
    hide StoreInv, AddAppointment, SourceTaken;
    InvParts(db);
    var id := |db.items|;
    var created := db.(items := db.items + [CapturedItem(item, message, index)]);
    if !SourceTaken(db.items, Some(message), Some(index)) {
      AddItemKeeps(db, CapturedItem(item, message, index));
      if item.due.Resolved? {
        if item.kind == Compromisso {
          AddAppointmentKeeps(created,
            Event(id, None, item.title, item.due.at, None, None, env.deslocamentoMinDefault, false, Ativo), env);
        } else {
          AddPlainJobKeeps(created,
            Job(REMINDER, PointReminder(id, item.title), item.due.at, None, JobPending, 0, None));
        }
      }
    }
  }

  lemma SetGcalKeeps(db: Db, eventId: nat, gcalId: string)
    requires StoreInv(db) && eventId < |db.events|
    requires forall i :: 0 <= i < |db.events| && i != eventId ==> db.events[i].gcalId != Some(gcalId)
    ensures StoreInv(db.(events := db.events[eventId := db.events[eventId].(gcalId := Some(gcalId))]))
  {
    hide SourcesUnique;
  }

  /** Every command, whatever its arguments and the settings of the moment, keeps the store consistent. */
  lemma CommandKeeps(db: Db, c: Command, env: Env)
    requires StoreInv(db)
    ensures StoreInv(Apply(db, c, env))
  {
    hide StoreInv, SetStatus, SetSnoozed, AfterDrop, AfterReschedule, AddGoogleAppointment, CaptureOne,
         BrainEventExists;
    match c
    case CreateItem(kind, title, ambiguous, priority, dueAt) =>
      AddItemKeeps(db, Item(kind, title, if ambiguous then Inbox else Ativa, priority, dueAt, 0, None, None));
    case Complete(id) => if id < |db.items| { SetStatusKeeps(db, id, Feita); }
    case Archive(id) => if id < |db.items| { SetStatusKeeps(db, id, Arquivada); }
    case Drop(id) =>
      if id < |db.items| {
        SetStatusKeeps(db, id, Dropada);
        DroppedKeeps(SetStatus(db, id, Dropada), id);
      }
    case Snooze(id, dueAt) => if id < |db.items| && dueAt.Some? { RescheduledKeeps(db, id, dueAt.value, env); }
    case Capture(item, message, index) => CaptureKeeps(db, item, message, index, env);
    case SyncEvent(google) => if google.startAt.Some? { GoogleKeeps(db, google, google.startAt.value, None, env); }
    case BrainEvent(google, message) =>
      if google.startAt.Some? { GoogleKeeps(db, google, google.startAt.value, Some(message), env); }
    case SetGcalId(eventId, gcalId) =>
      if eventId < |db.events|
         && forall i :: 0 <= i < |db.events| && i != eventId ==> db.events[i].gcalId != Some(gcalId)
      {
        SetGcalKeeps(db, eventId, gcalId);
      }
  }
}
