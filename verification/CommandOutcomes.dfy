/** What each command of the task store leaves, row by row, and when it is refused. */
module CommandOutcomes {
  import opened Common
  import opened ExpandChain
  import opened TaskTables
  import opened ChainInvariants

  predicate Closed(item: Item) {
    item.status == Feita || item.status == Arquivada || item.status == Dropada
  }

  /** Nothing changes but the item's status. */
  predicate StatusOnly(before: Db, after: Db, itemId: nat, status: ItemStatus)
    requires itemId < |before.items|
  {
    && after.items == before.items[itemId := before.items[itemId].(status := status)]
    && after.events == before.events && after.jobs == before.jobs
  }

  function ReminderRow(id: nat, e: Event, r: Reminder): Job {
    Job("reminder", ChainReminder(id, e.itemId, e.title, e.startAt, e.deslocamentoMin, r.stage), r.fireAt, None,
        JobPending, 0, None)
  }

  /** The jobs of `before`, then the chain of event `id`, one pending reminder for each stage. */
  predicate ChainAdded(before: seq<Job>, after: seq<Job>, id: nat, e: Event, env: Env) {
    var chain := Expand(e.startAt, e.deslocamentoMin, env.chain, env.now);
    && |after| == |before| + |chain|
    && (forall k :: 0 <= k < |before| ==> after[k] == before[k])
    && (forall k :: 0 <= k < |chain| ==> after[|before| + k] == ReminderRow(id, e, chain[k]))
  }

  /** One item, one active event of it with its chain marked as generated, and that chain. */
  predicate AppointmentAdded(db: Db, next: Db, item: Item, e: Event, env: Env) {
    && next.items == db.items + [item] && next.events == db.events + [e]
    && ChainAdded(db.jobs, next.jobs, |db.events|, e, env)
  }

  /** A pending chain reminder of the item's active event. */
  predicate Reminds(db: Db, job: Job, itemId: nat) {
    && job.kind == "reminder" && job.status == JobPending && job.payload.ChainReminder?
    && IsActive(db.events, job.payload.eventId) && db.events[job.payload.eventId].itemId == itemId
  }

  /** The jobs of `db`, those that remind of the item's active event cancelled. */
  function WithoutReminders(db: Db, itemId: nat): seq<Job> {
    seq(|db.jobs|, j requires 0 <= j < |db.jobs| =>
      if Reminds(db, db.jobs[j], itemId) then db.jobs[j].(status := JobCancelled) else db.jobs[j])
  }

  function ChangesItem(c: Command, id: nat): bool {
    c == Complete(id) || c == Archive(id) || c == Drop(id) || (c.Snooze? && c.id == id)
  }

  /** Completing, archiving, dropping and moving are refused exactly for an unknown item and for a closed one. */
  lemma RefusedIff(db: Db, c: Command, id: nat, env: Env)
    requires ChangesItem(c, id)
    ensures Refusal(Try(db, c, env))
         == if id >= |db.items| then Some(ItemNotFound)
            else if Closed(db.items[id]) then Some(InvalidTransition) else None
    ensures Refusal(Try(db, c, env)).Some? ==> Apply(db, c, env) == db
  {
    hide AfterDrop, AfterReschedule;
  }

  lemma StatusChanges(db: Db, id: nat, env: Env)
    requires id < |db.items| && !Closed(db.items[id])
    ensures StatusOnly(db, Apply(db, Complete(id), env), id, Feita)
    ensures StatusOnly(db, Apply(db, Archive(id), env), id, Arquivada)
    ensures Apply(db, Snooze(id, None), env) == db
  {
  }

  lemma CancelledAsReminders(db: Db, itemId: nat, event: nat)
    requires OneActive(db.events) && ActiveEventOf(db.events, itemId) == Some(event)
    ensures CancelPendingJobs(db.jobs, event) == WithoutReminders(db, itemId)
  {
    hide ActiveEventBelow;
    ActiveFound(db.events, itemId);
    forall j | 0 <= j < |db.jobs| ensures PendingReminderOf(db.jobs[j], event) <==> Reminds(db, db.jobs[j], itemId) {
    }
  }

  lemma NoneRemind(db: Db, itemId: nat)
    requires NoActiveEvent(db.events, itemId)
    ensures WithoutReminders(db, itemId) == db.jobs
  {
  }

  /** A drop closes the item and cancels its active event, if it has one, with the pending reminders of that event. */
  lemma DropLeaves(db: Db, id: nat, env: Env)
    requires OneActive(db.events) && id < |db.items| && !Closed(db.items[id])
    ensures var next := Apply(db, Drop(id), env);
      && next.items == db.items[id := db.items[id].(status := Dropada)]
      && |next.events| == |db.events|
      && (forall k :: 0 <= k < |db.events| ==>
            next.events[k] == if db.events[k].status == Ativo && db.events[k].itemId == id
                              then db.events[k].(status := Cancelado) else db.events[k])
      && next.jobs == WithoutReminders(db, id)
  {
    hide ActiveEventBelow, WithoutReminders, CancelPendingJobs;
    ActiveFound(db.events, id);
    match ActiveEventOf(db.events, id)
    case None => NoneRemind(db, id);
    case Some(event) => CancelledAsReminders(db, id, event);
  }

  /**
   * A move postpones the item once more. If it has an active event, that is
   * cancelled with its pending reminders, and an event that differs from it in the
   * start and in having no Google id takes its place, with the chain for the new date.
   */
  lemma MoveLeaves(db: Db, id: nat, dueAt: int, env: Env)
    requires OneActive(db.events) && id < |db.items| && !Closed(db.items[id])
    ensures var next := Apply(db, Snooze(id, Some(dueAt)), env);
      var item := db.items[id];
      && next.items
         == db.items[id := item.(status := Adiada, dueAt := Some(dueAt), snoozeCount := item.snoozeCount + 1)]
      && (NoActiveEvent(db.events, id) ==> next.events == db.events && next.jobs == db.jobs)
      && forall k: nat :: IsActive(db.events, k) && db.events[k].itemId == id ==>
           var was := db.events[k];
           var e := Event(id, None, was.title, dueAt, was.endAt, was.local, was.deslocamentoMin, true, Ativo);
           && next.events == db.events[k := was.(status := Cancelado)] + [e]
           && ChainAdded(WithoutReminders(db, id), next.jobs, |db.events|, e, env)
  {
    hide ActiveEventBelow, WithoutReminders, CancelPendingJobs, Expand;
    ActiveFound(db.events, id);
    match ActiveEventOf(db.events, id)
    case None =>
    case Some(event) => CancelledAsReminders(db, id, event);
  }

  lemma AddedWithChain(db: Db, item: Item, e: Event, env: Env)
    ensures AppointmentAdded(db, AddAppointment(db.(items := db.items + [item]), e, env), item,
                             e.(cadeiaGerada := true), env)
  {
    hide Expand;
  }

  /**
   * A captured position becomes one item, dated if its text resolved to a date and
   * left in the inbox if it is ambiguous or did not; a dated appointment comes with
   * its event and chain, any other dated item with one reminder at its date.
   */
  lemma CaptureLeaves(db: Db, item: TriageItem, message: nat, index: nat, env: Env)
    requires !SourceTaken(db.items, Some(message), Some(index))
    ensures var next := Apply(db, Capture(item, message, index), env);
      var unclear := item.ambiguous || item.due.Unresolved?;
      var dueAt := if item.due.Resolved? then Some(item.due.at) else None;
      var row :=
        Item(item.kind, item.title, if unclear then Inbox else Ativa, None, dueAt, 0, Some(message), Some(index));
      match dueAt
      case None => next == db.(items := db.items + [row])
      case Some(at) =>
        if item.kind == Compromisso then
          AppointmentAdded(db, next, row,
            Event(|db.items|, None, item.title, at, None, None, env.deslocamentoMinDefault, true, Ativo), env)
        else
          next == Db(db.items + [row], db.events,
            db.jobs + [Job("reminder", PointReminder(|db.items|, item.title), at, None, JobPending, 0, None)])
  {
    hide Expand;
    if item.due.Resolved? && item.kind == Compromisso {
      AddedWithChain(db, CapturedItem(item, message, index),
        Event(|db.items|, None, item.title, item.due.at, None, None, env.deslocamentoMinDefault, false, Ativo), env);
    }
  }

  /** A position already recorded is refused, and nothing changes. */
  lemma CaptureRefused(db: Db, item: TriageItem, message: nat, index: nat, env: Env, i: nat)
    requires i < |db.items| && db.items[i].sourceMessageId == Some(message)
    requires db.items[i].sourceItemIndex == Some(index)
    ensures Try(db, Capture(item, message, index), env) == Failure(UniqueViolation)
    ensures Apply(db, Capture(item, message, index), env) == db
  {
  }

  /** The appointment that comes from Google: active, due at its start, with the default travel time. */
  predicate GoogleAdded(db: Db, next: Db, google: GoogleEvent, message: Option<nat>, env: Env) {
    google.startAt.Some? &&
    AppointmentAdded(db, next, Item(Compromisso, google.title, Ativa, None, google.startAt, 0, message, None),
      Event(|db.items|, Some(google.gcalId), google.title, google.startAt.value, google.endAt, google.location,
            env.deslocamentoMinDefault, true, Ativo), env)
  }

  lemma GoogleLeaves(db: Db, google: GoogleEvent, message: Option<nat>, env: Env)
    requires google.startAt.Some?
    ensures var r := AddGoogleAppointment(db, google, google.startAt.value, message, env);
      if GcalTaken(db.events, google.gcalId) then r == Failure(UniqueViolation)
      else r.Success? && GoogleAdded(db, r.value, google, message, env)
  {
    hide GcalTaken, Expand;
    AddedWithChain(db, Item(Compromisso, google.title, Ativa, None, google.startAt, 0, message, None),
      Event(|db.items|, Some(google.gcalId), google.title, google.startAt.value, google.endAt, google.location,
            env.deslocamentoMinDefault, false, Ativo), env);
  }

  /** No event of the store, cancelled or not, has that Google id. */
  predicate NeverSeen(db: Db, gcalId: string) {
    forall k :: 0 <= k < |db.events| ==> db.events[k].gcalId != Some(gcalId)
  }

  /** A sync adds the whole appointment when the event has a start and a new id, and else changes nothing. */
  lemma SyncLeaves(db: Db, google: GoogleEvent, env: Env)
    ensures var next := Apply(db, SyncEvent(google), env);
      if google.startAt.Some? && NeverSeen(db, google.gcalId) then GoogleAdded(db, next, google, None, env)
      else next == db
  {
    hide AddGoogleAppointment;
    if google.startAt.Some? { GoogleLeaves(db, google, None, env); }
  }

  /** The first item of a message. */
  predicate IsFirstOf(items: seq<Item>, message: nat, i: nat) {
    && i < |items| && items[i].sourceMessageId == Some(message)
    && forall k :: 0 <= k < i ==> items[k].sourceMessageId != Some(message)
  }

  /** The first item of the message has an active event with a Google id. */
  ghost predicate HasItsEvent(db: Db, message: nat) {
    exists i: nat, k: nat ::
      IsFirstOf(db.items, message, i) && IsActive(db.events, k) && db.events[k].itemId == i && db.events[k].gcalId.Some?
  }

  lemma {:induction false} FirstFound(items: seq<Item>, message: nat, n: nat)
    requires n <= |items|
    ensures var found := FirstOfMessage(items, message, n);
      if found.None? then forall k :: 0 <= k < n ==> items[k].sourceMessageId != Some(message)
      else IsFirstOf(items, message, found.value)
  {
    if n > 0 {
      FirstFound(items, message, n - 1);
    }
  }

  lemma GuardSees(db: Db, message: nat)
    requires OneActive(db.events)
    ensures BrainEventExists(db, message) <==> HasItsEvent(db, message)
  {
    hide ActiveEventBelow;
    FirstFound(db.items, message, |db.items|);
    var first := FirstOfMessage(db.items, message, |db.items|);
    if first.Some? {
      ActiveFound(db.events, first.value);
      if BrainEventExists(db, message) {
        assert IsFirstOf(db.items, message, first.value);
        assert IsActive(db.events, ActiveEventOf(db.events, first.value).value);
      }
    }
    if HasItsEvent(db, message) {
      var i: nat, k: nat :| IsFirstOf(db.items, message, i) && IsActive(db.events, k) && db.events[k].itemId == i
                            && db.events[k].gcalId.Some?;
      assert first == Some(i);
      var found := ActiveEventOf(db.events, i).value;
      assert found == k;
    }
  }

  /**
   * The brain's call adds the whole appointment under its message, unless the message
   * has its event already; an id seen before is refused. Without a start it does nothing.
   */
  lemma BrainLeaves(db: Db, google: GoogleEvent, message: nat, env: Env)
    requires OneActive(db.events)
    ensures var next := Apply(db, BrainEvent(google, message), env);
      var r := Try(db, BrainEvent(google, message), env);
      if google.startAt.None? || HasItsEvent(db, message) then r == Success(db)
      else if NeverSeen(db, google.gcalId) then r.Success? && GoogleAdded(db, next, google, Some(message), env)
      else r == Failure(UniqueViolation) && next == db
  {
    hide AddGoogleAppointment, BrainEventExists, HasItsEvent, GoogleAdded;
    GuardSees(db, message);
    if google.startAt.Some? { GoogleLeaves(db, google, Some(message), env); }
  }

  /** The id Google gave is written to its event alone, unless another event has it. */
  lemma GcalIdLeaves(db: Db, eventId: nat, gcalId: string, env: Env)
    ensures var next := Apply(db, SetGcalId(eventId, gcalId), env);
      if eventId < |db.events|
         && (forall k :: 0 <= k < |db.events| && k != eventId ==> db.events[k].gcalId != Some(gcalId))
      then next == db.(events := db.events[eventId := db.events[eventId].(gcalId := Some(gcalId))])
      else next == db
  {
  }
}
