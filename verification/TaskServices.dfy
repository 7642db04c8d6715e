/** The services over the task store as written: statements on tables, loops and all. */
module TaskServices {
  import opened Common
  import opened ExpandChain
  import opened TaskTables
  import opened ChainInvariants
  import opened StoreChanges
  import opened Capture

  /** The tables every repository shares. */
  class Tables {
    var items: seq<Item>
    var events: seq<Event>
    var jobs: seq<Job>

    ghost function State(): Db
      reads this
    {
      Db(items, events, jobs)
    }

    constructor ()
      ensures State() == Db([], [], [])
    {
      items, events, jobs := [], [], [];
    }
  }

  /** What a query for the pending jobs of one type may return: each of them once, in no promised order. */
  predicate IsPendingOfType(jobs: seq<Job>, kind: string, ids: seq<nat>) {
    && (forall a, b :: 0 <= a < b < |ids| ==> ids[a] != ids[b])
    && (forall k <- ids :: k < |jobs| && jobs[k].kind == kind && jobs[k].status == JobPending)
    && (forall k :: 0 <= k < |jobs| && jobs[k].kind == kind && jobs[k].status == JobPending ==> k in ids)
  }

  lemma PendingGrows(jobs: seq<Job>, i: nat, kind: string, ids: seq<nat>)
    requires i < |jobs| && IsPendingOfType(jobs[..i], kind, ids)
    ensures IsPendingOfType(jobs[..i + 1], kind,
                            ids + if jobs[i].kind == kind && jobs[i].status == JobPending then [i] else [])
  {
    var more := ids + if jobs[i].kind == kind && jobs[i].status == JobPending then [i] else [];
    var before, after := jobs[..i], jobs[..i + 1];
    forall a | 0 <= a < |more|
      ensures 0 <= more[a] < |after| && after[more[a]].kind == kind && after[more[a]].status == JobPending
      ensures a < |ids| ==> more[a] == ids[a] < i
    {
      if a < |ids| {
        assert ids[a] in ids;
        assert before[ids[a]] == after[ids[a]];
      } else {
        assert more[a] == i && after[i] == jobs[i];
      }
    }
    forall a, b | 0 <= a < b < |more| ensures more[a] != more[b] {
      assert b >= |ids| ==> more[b] == i;
    }
    forall k | 0 <= k < |after| && after[k].kind == kind && after[k].status == JobPending ensures k in more {
      if k < i {
        assert before[k] == after[k] && k in ids;
      } else {
        assert more[|ids|] == k;
      }
    }
  }

  class ChainService {
    const tables: Tables

    constructor (tables: Tables)
      ensures this.tables == tables
    {
      this.tables := tables;
    }

    method CreateEvent(e: Event) returns (id: nat)
      modifies tables`events
      ensures id == |old(tables.events)| && tables.events == old(tables.events) + [e]
    {
      id := |tables.events|;
      tables.events := tables.events + [e];
    }

    method CancelActiveForItem(itemId: nat) returns (cancelled: Option<nat>)
      modifies tables`events
      ensures cancelled == ActiveEventOf(old(tables.events), itemId)
      ensures tables.events == if cancelled.None? then old(tables.events)
                               else CancelEvent(old(tables.State()), cancelled.value).events
    {
      cancelled := ActiveEventOf(tables.events, itemId);
      if cancelled.Some? {
        var id := cancelled.value;
        tables.events := tables.events[id := tables.events[id].(status := Cancelado)];
      }
    }

    method ScheduleForEvent(id: nat, env: Env)
      requires id < |tables.events|
      modifies tables`jobs, tables`events
      ensures tables.State() == WithChain(old(tables.State()), id, env)
    {
      hide Expand;
      var e := tables.events[id];
      var reminders := Expand(e.startAt, e.deslocamentoMin, env.chain, env.now);
      for i := 0 to |reminders|
        invariant tables.jobs == old(tables.jobs) + ChainJobs(id, e, reminders[..i])
        invariant tables.events == old(tables.events)
      {
        var r := reminders[i];
        tables.jobs := tables.jobs + [Job(REMINDER,
          ChainReminder(id, e.itemId, e.title, e.startAt, e.deslocamentoMin, r.stage), r.fireAt, None, JobPending, 0,
          None)];
        assert ChainJobs(id, e, reminders[..i + 1]) == ChainJobs(id, e, reminders[..i]) + [ChainJob(id, e, r)];
      }
      assert reminders[..|reminders|] == reminders;
      tables.events := tables.events[id := e.(cadeiaGerada := true)];
    }

    method FindPendingByType(kind: string) returns (ids: seq<nat>)
      ensures IsPendingOfType(tables.jobs, kind, ids)
    {
      ids := [];
      for i := 0 to |tables.jobs|
        invariant IsPendingOfType(tables.jobs[..i], kind, ids)
      {
        PendingGrows(tables.jobs, i, kind, ids);
        if tables.jobs[i].kind == kind && tables.jobs[i].status == JobPending {
          ids := ids + [i];
        }
      }
      assert tables.jobs[..|tables.jobs|] == tables.jobs;
    }

    /** Walks the pending reminders read at the start, cancelling those of the event. */
    method CancelPendingJobsForEvent(eventId: nat)
      modifies tables`jobs
      ensures tables.jobs == CancelPendingJobs(old(tables.jobs), eventId)
    {
      ghost var was := tables.jobs;
      var pending := FindPendingByType(REMINDER);
      for i := 0 to |pending|
        invariant |tables.jobs| == |was|
        invariant forall j :: 0 <= j < |was| ==>
          tables.jobs[j] == if j in pending[..i] then CancelJob(was[j], eventId) else was[j]
      {
        assert pending[i] in pending && pending[..i + 1] == pending[..i] + [pending[i]];
        var job := tables.jobs[pending[i]];
        if job.payload.ChainReminder? && job.payload.eventId == eventId {
          tables.jobs := tables.jobs[pending[i] := job.(status := JobCancelled)];
        }
      }
      assert pending[..|pending|] == pending;
    }

    method OnItemDropped(itemId: nat)
      modifies tables`events, tables`jobs
      ensures tables.State() == AfterDrop(old(tables.State()), itemId)
    {
      var event := CancelActiveForItem(itemId);
      if event.None? {
        return;
      }
      CancelPendingJobsForEvent(event.value);
    }

    method OnItemRescheduled(itemId: nat, dueAt: int, env: Env)
      modifies tables`events, tables`jobs
      ensures tables.State() == AfterReschedule(old(tables.State()), itemId, dueAt, env)
    {
      hide Expand, ActiveEventBelow;
      var previous := CancelActiveForItem(itemId);
      if previous.None? {
        return;
      }
      var e := tables.events[previous.value];
      CancelPendingJobsForEvent(previous.value);
      var id := CreateEvent(Event(itemId, None, e.title, dueAt, e.endAt, e.local, e.deslocamentoMin, false, Ativo));
      ScheduleForEvent(id, env);
    }
  }

  class ItemService {
    const tables: Tables
    const chains: ChainService

    constructor (tables: Tables)
      ensures this.tables == tables && chains.tables == tables
    {
      this.tables := tables;
      chains := new ChainService(tables);
    }

    method UpdateStatus(id: nat, status: ItemStatus)
      requires id < |tables.items|
      modifies tables`items
      ensures tables.State() == SetStatus(old(tables.State()), id, status)
    {
      tables.items := tables.items[id := tables.items[id].(status := status)];
    }

    method Complete(id: nat, env: Env) returns (error: Option<StoreError>)
      modifies tables
      ensures tables.State() == Apply(old(tables.State()), Command.Complete(id), env)
      ensures error == Refusal(Try(old(tables.State()), Command.Complete(id), env))
    {
      if id >= |tables.items| { return Some(ItemNotFound); }
      if !CanTransition(tables.items[id].status, Feita) { return Some(InvalidTransition); }
      UpdateStatus(id, Feita);
      return None;
    }

    method Archive(id: nat, env: Env) returns (error: Option<StoreError>)
      modifies tables
      ensures tables.State() == Apply(old(tables.State()), Command.Archive(id), env)
      ensures error == Refusal(Try(old(tables.State()), Command.Archive(id), env))
    {
      if id >= |tables.items| { return Some(ItemNotFound); }
      if !CanTransition(tables.items[id].status, Arquivada) { return Some(InvalidTransition); }
      UpdateStatus(id, Arquivada);
      return None;
    }

    method Drop(id: nat, env: Env) returns (error: Option<StoreError>)
      requires chains.tables == tables
      modifies tables
      ensures tables.State() == Apply(old(tables.State()), Command.Drop(id), env)
      ensures error == Refusal(Try(old(tables.State()), Command.Drop(id), env))
    {
      if id >= |tables.items| { return Some(ItemNotFound); }
      if !CanTransition(tables.items[id].status, Dropada) { return Some(InvalidTransition); }
      UpdateStatus(id, Dropada);
      chains.OnItemDropped(id);   // through the bus, on item.dropped
      return None;
    }

    /** `snoozeByText` with the parsed date, or `snoozeToDate`; an unrecognised text moves nothing. */
    method Snooze(id: nat, dueAt: Option<int>, env: Env) returns (error: Option<StoreError>)
      requires chains.tables == tables
      modifies tables
      ensures tables.State() == Apply(old(tables.State()), Command.Snooze(id, dueAt), env)
      ensures error == Refusal(Try(old(tables.State()), Command.Snooze(id, dueAt), env))
    {
      hide AfterReschedule;
      if id >= |tables.items| { return Some(ItemNotFound); }
      var item := tables.items[id];
      if !CanTransition(item.status, Adiada) { return Some(InvalidTransition); }
      if dueAt.None? { return None; }
      tables.items := tables.items[id := item.(status := Adiada, dueAt := dueAt, snoozeCount := item.snoozeCount + 1)];
      chains.OnItemRescheduled(id, dueAt.value, env);   // through the bus, on item.rescheduled
      return None;
    }
  }

  class GoogleCalendarService {
    const tables: Tables
    const chains: ChainService

    constructor (tables: Tables)
      ensures this.tables == tables && chains.tables == tables
    {
      this.tables := tables;
      chains := new ChainService(tables);
    }

    /** One transaction: a clash on the Google id undoes the item too, and is skipped. */
    method SyncEvent(google: GoogleEvent, env: Env)
      requires chains.tables == tables
      modifies tables
      ensures tables.State() == Sync(old(tables.State()), google, env)
    {
      hide Expand;
      if google.startAt.None? || ActiveGcal(tables.events, google.gcalId) {
        return;
      }
      var savedItems := tables.items;
      var itemId := |tables.items|;
      tables.items := tables.items + [Item(Compromisso, google.title, Ativa, None, google.startAt, 0, None, None)];
      if GcalTaken(tables.events, google.gcalId) {
        tables.items := savedItems;   // rollback
        return;
      }
      var id := chains.CreateEvent(Event(itemId, Some(google.gcalId), google.title, google.startAt.value, google.endAt,
                                         google.location, env.deslocamentoMinDefault, false, Ativo));
      chains.ScheduleForEvent(id, env);
    }

    /** The store half of the brain's tool call, once the remote event exists. */
    method CreateEventFromBrain(google: GoogleEvent, message: nat, env: Env) returns (error: Option<StoreError>)
      requires chains.tables == tables && google.startAt.Some?
      modifies tables
      ensures tables.State() == Apply(old(tables.State()), BrainEvent(google, message), env)
      ensures error == Refusal(Try(old(tables.State()), BrainEvent(google, message), env))
    {
      hide Expand, ActiveEventBelow;
      var item := FirstOfMessage(tables.items, message, |tables.items|);
      if item.Some? {
        var existing := ActiveEventOf(tables.events, item.value);
        if existing.Some? && tables.events[existing.value].gcalId.Some? {
          return None;
        }
      }
      var savedItems := tables.items;
      var itemId := |tables.items|;
      tables.items := tables.items
        + [Item(Compromisso, google.title, Ativa, None, google.startAt, 0, Some(message), None)];
      if GcalTaken(tables.events, google.gcalId) {
        tables.items := savedItems;   // rollback
        return Some(UniqueViolation);
      }
      var id := chains.CreateEvent(Event(itemId, Some(google.gcalId), google.title, google.startAt.value, google.endAt,
                                         google.location, env.deslocamentoMinDefault, false, Ativo));
      chains.ScheduleForEvent(id, env);
      return None;
    }
  }

  // ---- Capture ------------------------------------------------------------

  predicate CapturesFor(x: Change, message: nat) {
    x.Issued? && x.command.Capture? && x.command.message == message
  }

  /** The captures of one message among the changes made. */
  function CapturesOf(log: seq<Change>, message: nat): seq<Command> {
    if log == [] then []
    else
      CapturesOf(log[..|log| - 1], message)
      + if CapturesFor(log[|log| - 1], message) then [log[|log| - 1].command] else []
  }

  /** The captures a complete attempt owes: each position not yet recorded, in order. */
  function Owed(items: seq<TriageItem>, message: nat, already: set<nat>, n: nat): seq<Command>
    requires n <= |items|
  {
    if n == 0 then []
    else Owed(items, message, already, n - 1) + if n - 1 in already then [] else [Capture(items[n - 1], message, n - 1)]
  }

  lemma NothingChanged(db: Db, message: nat)
    ensures RunChanges(db, []) == db && CapturesOf([], message) == []
  {
  }

  /** What a capture records keeps its name through other changes. */
  lemma NamesPersist(a: seq<Item>, b: seq<Item>, ids: seq<nat>, captures: seq<Command>, message: nat)
    requires NamesCaptured(a, ids, captures, message) && KeepsSources(a, b)
    ensures NamesCaptured(b, ids, captures, message)
  {
  }

  lemma NamesGrow(a: seq<Item>, item: TriageItem, ids: seq<nat>, captures: seq<Command>, message: nat, index: nat)
    requires NamesCaptured(a, ids, captures, message)
    ensures NamesCaptured(a + [CapturedItem(item, message, index)], ids + [|a|],
                          captures + [Capture(item, message, index)], message)
  {
  }

  lemma ChangesExtend(db: Db, log: seq<Change>, x: Change, message: nat)
    ensures RunChanges(db, log + [x]) == Changed(RunChanges(db, log), x)
    ensures CapturesOf(log + [x], message)
         == CapturesOf(log, message) + if CapturesFor(x, message) then [x.command] else []
  {
    hide Changed;
    assert (log + [x])[..|log|] == log;
  }

  lemma AppendLeavesSources(items: seq<Item>, item: Item, message: nat)
    requires !(item.sourceMessageId == Some(message) && item.sourceItemIndex.Some?)
    ensures LeavesSources(items, items + [item], message)
  {
  }

  /** No item changes its source, and no new one takes a position of the message. */
  predicate LeavesSources(a: seq<Item>, b: seq<Item>, message: nat) {
    && KeepsSources(a, b)
    && forall i :: |a| <= i < |b| ==> !(b[i].sourceMessageId == Some(message) && b[i].sourceItemIndex.Some?)
  }

  lemma GoogleItems(db: Db, google: GoogleEvent, startAt: int, source: Option<nat>, env: Env, message: nat)
    ensures var r := AddGoogleAppointment(db, google, startAt, source, env);
      r.Success? ==> LeavesSources(db.items, r.value.items, message)
  {
    hide Expand, LeavesSources;
    var item := Item(Compromisso, google.title, Ativa, None, Some(startAt), 0, source, None);
    AppendLeavesSources(db.items, item, message);
  }

  lemma OtherChangesLeaveSources(db: Db, x: Change, message: nat)
    requires !CapturesFor(x, message)
    ensures LeavesSources(db.items, Changed(db, x).items, message)
  {
    hide AddGoogleAppointment, AfterDrop, AfterReschedule, AddAppointment, JobsProgress, BrainEventExists,
         Torn;
    if x.Died? { TearKeepsSources(db, x.tear, x.env); }
    if x.Issued? {
      match x.command
      case Drop(id) => if id < |db.items| { ChainsLeaveItems(SetStatus(db, id, Dropada), id, 0, x.env); }
      case Snooze(id, dueAt) =>
        if id < |db.items| && dueAt.Some? {
          ChainsLeaveItems(SetSnoozed(db, id, dueAt.value), id, dueAt.value, x.env);
        }
      case Capture(item, other, index) => CaptureLeavesSources(db, item, other, index, x.env, message);
      case SyncEvent(google) =>
        if google.startAt.Some? { GoogleItems(db, google, google.startAt.value, None, x.env, message); }
      case BrainEvent(google, source) =>
        if google.startAt.Some? { GoogleItems(db, google, google.startAt.value, Some(source), x.env, message); }
      case _ =>
    }
  }

  lemma CaptureLeavesSources(db: Db, item: TriageItem, other: nat, index: nat, env: Env, message: nat)
    requires other != message
    ensures var r := CaptureOne(db, item, other, index, env);
      r.Success? ==> LeavesSources(db.items, r.value.items, message)
  {
    hide Expand;
    if !Recorded(db.items, other, index) {
      CaptureOneAdds(db, item, other, index, env);
    }
  }

  lemma OtherChangesKeepRecorded(db: Db, x: Change, message: nat, k: nat)
    requires !CapturesFor(x, message)
    ensures Recorded(Changed(db, x).items, message, k) <==> Recorded(db.items, message, k)
  {
    hide Changed;
    OtherChangesLeaveSources(db, x, message);
    var next := Changed(db, x);
    if Recorded(db.items, message, k) {
      var i :|
        0 <= i < |db.items| && db.items[i].sourceMessageId == Some(message) && db.items[i].sourceItemIndex == Some(k);
      assert next.items[i].sourceItemIndex == Some(k);
    }
  }

  /** The ids returned are those of the items the captures recorded, in order. */
  predicate NamesCaptured(items: seq<Item>, ids: seq<nat>, captures: seq<Command>, message: nat) {
    && |ids| == |captures|
    && forall j :: 0 <= j < |ids| ==>
         && captures[j].Capture? && ids[j] < |items|
         && items[ids[j]].sourceMessageId == Some(message) && items[ids[j]].sourceItemIndex == Some(captures[j].index)
  }

  class CaptureService {
    const tables: Tables
    const chains: ChainService

    constructor (tables: Tables)
      ensures this.tables == tables && chains.tables == tables
    {
      this.tables := tables;
      chains := new ChainService(tables);
    }

    /** One position, in one transaction. */
    method CaptureOneItem(item: TriageItem, message: nat, index: nat, env: Env) returns (hasEvent: bool)
      requires chains.tables == tables && !Recorded(tables.items, message, index)
      modifies tables
      ensures tables.State() == Changed(old(tables.State()), Issued(Capture(item, message, index), env))
      ensures hasEvent <==> item.due.Resolved? && item.kind == Compromisso
    {
      hide Expand;
      var id := |tables.items|;
      var status := if item.ambiguous || item.due.Unresolved? then Inbox else Ativa;
      var dueAt := if item.due.Resolved? then Some(item.due.at) else None;
      tables.items := tables.items + [Item(item.kind, item.title, status, None, dueAt, 0, Some(message), Some(index))];
      hasEvent := item.due.Resolved? && item.kind == Compromisso;
      if hasEvent {
        var event := chains.CreateEvent(
          Event(id, None, item.title, item.due.at, None, None, env.deslocamentoMinDefault, false, Ativo));
        chains.ScheduleForEvent(event, env);
      } else if item.due.Resolved? {
        tables.jobs := tables.jobs
          + [Job(REMINDER, PointReminder(id, item.title), item.due.at, None, JobPending, 0, None)];
      }
    }

    /**
     * The await on Google: any other commands may run, the update of the Google id
     * among them, and the scheduler too. The process does not die meanwhile.
     */
    method Await(message: nat) returns (ghost log: seq<Change>)
      requires Sound(tables.State())
      modifies tables
      ensures Sound(tables.State()) && tables.State() == RunChanges(old(tables.State()), log)
      ensures forall x <- log :: !x.Died?
      ensures CapturesOf(log, message) == []
      ensures forall k: nat :: Recorded(tables.items, message, k) <==> Recorded(old(tables.items), message, k)
      ensures KeepsSources(old(tables.items), tables.items)
    {
      hide Sound, Changed, Recorded;
      log := [];
      var n: nat := *;
      while n > 0
        invariant Sound(tables.State()) && tables.State() == RunChanges(old(tables.State()), log)
        invariant forall x <- log :: !x.Died?
        invariant CapturesOf(log, message) == []
        invariant forall k: nat :: Recorded(tables.items, message, k) <==> Recorded(old(tables.items), message, k)
        invariant KeepsSources(old(tables.items), tables.items)
      {
        var x: Change := *;
        if !CapturesFor(x, message) && !x.Died? {
          var db := Db(tables.items, tables.events, tables.jobs);
          var next := Changed(db, x);
          ChangeSound(db, x);
          OtherChangesLeaveSources(db, x, message);
          forall k: nat ensures Recorded(next.items, message, k) <==> Recorded(db.items, message, k) {
            OtherChangesKeepRecorded(db, x, message, k);
          }
          tables.items, tables.events, tables.jobs := next.items, next.events, next.jobs;
          ChangesExtend(old(tables.State()), log, x, message);
          log := log + [x];
        }
        n := n - 1;
      }
    }

    /**
     * A complete attempt: it issues exactly the captures the earlier attempts
     * left owing, in order, each under the settings and clock of its moment and
     * whatever else runs meanwhile, and leaves exactly one item for each position.
     */
    method CaptureItems(items: seq<TriageItem>, message: nat) returns (captured: seq<nat>, ghost log: seq<Change>)
      requires chains.tables == tables && Sound(tables.State())
      modifies tables
      ensures Sound(tables.State()) && (StoreInv(old(tables.State())) ==> StoreInv(tables.State()))
      ensures tables.State() == RunChanges(old(tables.State()), log) && forall x <- log :: !x.Died?
      ensures CapturesOf(log, message) == Owed(items, message, CapturedIndexes(old(tables.items), message), |items|)
      ensures NamesCaptured(tables.items, captured, CapturesOf(log, message), message)
      ensures forall k :: 0 <= k < |items| ==> |CopiesOf(tables.items, message, k)| == 1
    {
      hide Sound, StoreInv, Changed, Recorded, CapturedIndexes, CapturesOf, RunChanges, CapturedItem, KeepsSources;
      NothingChanged(tables.State(), message);
      var already := CapturedIndexes(tables.items, message);
      forall k: nat ensures k in already <==> Recorded(tables.items, message, k) {
        IndexesAreRecorded(tables.items, message, k);
      }
      captured, log := [], [];
      for i := 0 to |items|
        invariant Sound(tables.State()) && tables.State() == RunChanges(old(tables.State()), log)
        invariant forall x <- log :: !x.Died?
        invariant CapturesOf(log, message) == Owed(items, message, already, i)
        invariant NamesCaptured(tables.items, captured, CapturesOf(log, message), message)
        invariant forall k :: 0 <= k < i ==> Recorded(tables.items, message, k)
        invariant forall k :: i <= k < |items| ==> (k in already <==> Recorded(tables.items, message, k))
      {
        if i in already {
          continue;
        }
        var env: Env := *;   // the settings, read at each call, and the clock
        var id := |tables.items|;
        ghost var was, x := tables.State(), Issued(Capture(items[i], message, i), env);
        var hasEvent := CaptureOneItem(items[i], message, i, env);
        CaptureStep(was, items[i], message, i, env);
        NamesGrow(was.items, items[i], captured, CapturesOf(log, message), message, i);
        captured := captured + [id];
        ChangesExtend(old(tables.State()), log, x, message);
        log := log + [x];
        if hasEvent {
          ghost var recorded := tables.items;
          ghost var others := Await(message);
          NamesPersist(recorded, tables.items, captured, CapturesOf(log, message), message);
          RunChangesConcat(old(tables.State()), log, others);
          CapturesOfConcat(log, others, message);
          log := log + others;
        }
      }
      forall k | 0 <= k < |items| ensures |CopiesOf(tables.items, message, k)| == 1 {
        OneCopy(tables.State(), message, k);
      }
      if StoreInv(old(tables.State())) { ChangesKeep(old(tables.State()), log); }
    }
  }

  lemma CaptureStep(db: Db, item: TriageItem, message: nat, index: nat, env: Env)
    requires Sound(db) && !Recorded(db.items, message, index)
    ensures var next := Changed(db, Issued(Capture(item, message, index), env));
      && Sound(next) && next.items == db.items + [CapturedItem(item, message, index)]
      && forall k: nat :: Recorded(next.items, message, k) <==> Recorded(db.items, message, k) || k == index
  {
    hide Sound, CaptureOne, Recorded;
    CommandSound(db, Capture(item, message, index), env);
    CaptureOneAdds(db, item, message, index, env);
    forall k: nat
      ensures Recorded(db.items + [CapturedItem(item, message, index)], message, k)
         <==> Recorded(db.items, message, k) || k == index
    {
      RecordedAfter(db.items, item, message, index, k);
    }
  }

  lemma {:induction false} RunChangesConcat(db: Db, a: seq<Change>, b: seq<Change>)
    ensures RunChanges(db, a + b) == RunChanges(RunChanges(db, a), b)
  {
    hide Changed;
    if b == [] {
      assert a + b == a;
    } else {
      assert (a + b)[..|a + b| - 1] == a + b[..|b| - 1];
      RunChangesConcat(db, a, b[..|b| - 1]);
    }
  }

  lemma {:induction false} CapturesOfConcat(a: seq<Change>, b: seq<Change>, message: nat)
    ensures CapturesOf(a + b, message) == CapturesOf(a, message) + CapturesOf(b, message)
  {
    if b == [] {
      assert a + b == a;
    } else {
      assert (a + b)[..|a + b| - 1] == a + b[..|b| - 1];
      CapturesOfConcat(a, b[..|b| - 1], message);
    }
  }
}
