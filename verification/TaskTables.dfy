/**
 * The tables of the task store (`items`, `events`, `jobs`) and what each
 * command does to them, as functions on whole-table values. Ids are positions:
 * no row is ever deleted.
 */
module TaskTables {
  import opened Common
  import opened Recurrence
  import opened ExpandChain

  datatype ItemType = Tarefa | Ideia | Compromisso | Lembrete | Nota

  datatype ItemStatus = Inbox | Ativa | EmAndamento | Feita | Adiada | Arquivada | Dropada

  datatype Item = Item(
    kind: ItemType, title: string, status: ItemStatus, priority: Option<int>, dueAt: Option<int>, snoozeCount: nat,
    sourceMessageId: Option<nat>, sourceItemIndex: Option<nat>)

  datatype EventStatus = Ativo | Cancelado

  datatype Event = Event(
    itemId: nat, gcalId: Option<string>, title: string, startAt: int, endAt: Option<int>, local: Option<string>,
    deslocamentoMin: int, cadeiaGerada: bool, status: EventStatus)

  datatype Payload =
    | NoPayload
    | PointReminder(itemId: nat, title: string)
    | ChainReminder(eventId: nat, itemId: nat, title: string, startAt: int, deslocamentoMin: int, stage: ChainStage)

  datatype JobStatus = JobPending | JobRunning | JobConfirmed | JobFailed | JobCancelled

  datatype Job = Job(
    kind: string, payload: Payload, nextRunAt: int, recurrence: Option<RecurrenceRule>, status: JobStatus,
    attempts: nat, deliveredAt: Option<int>)

  datatype Db = Db(items: seq<Item>, events: seq<Event>, jobs: seq<Job>)

  datatype StoreError = ItemNotFound | InvalidTransition | UniqueViolation

  /** Settings read at call time, and the clock. */
  datatype Env = Env(chain: ChainSettings, deslocamentoMinDefault: int, now: int)

  const REMINDER := "reminder"

  // ---- Items --------------------------------------------------------------

  function Transitions(from: ItemStatus): set<ItemStatus> {
    match from
    case Inbox => {Ativa, EmAndamento, Feita, Adiada, Arquivada, Dropada}
    case Ativa => {EmAndamento, Feita, Adiada, Arquivada, Dropada}
    case EmAndamento => {Feita, Adiada, Arquivada, Dropada}
    case Adiada => {Ativa, EmAndamento, Feita, Adiada, Arquivada, Dropada}
    case Feita => {}
    case Arquivada => {}
    case Dropada => {}
  }

  predicate CanTransition(from: ItemStatus, to: ItemStatus) {
    to in Transitions(from)
  }

  /** The unique index on message and position; a null position never clashes. */
  predicate SourceTaken(items: seq<Item>, message: Option<nat>, index: Option<nat>) {
    message.Some? && index.Some?
    && exists i :: 0 <= i < |items| && items[i].sourceMessageId == message && items[i].sourceItemIndex == index
  }

  function CheckTransition(db: Db, id: nat, to: ItemStatus): Result<Item, StoreError> {
    if id >= |db.items| then Failure(ItemNotFound)
    else if !CanTransition(db.items[id].status, to) then Failure(InvalidTransition)
    else Success(db.items[id])
  }

  function SetStatus(db: Db, id: nat, status: ItemStatus): Db
    requires id < |db.items|
  {
    db.(items := db.items[id := db.items[id].(status := status)])
  }

  function SetSnoozed(db: Db, id: nat, dueAt: int): Db
    requires id < |db.items|
  {
    var item := db.items[id];
    db.(items := db.items[id := item.(status := Adiada, dueAt := Some(dueAt), snoozeCount := item.snoozeCount + 1)])
  }

  // ---- Events and chains --------------------------------------------------

  /** The active event of an item with the greatest id below `n`. */
  function ActiveEventBelow(events: seq<Event>, itemId: nat, n: nat): (r: Option<nat>)
    requires n <= |events|
    ensures r.Some? ==> r.value < n && events[r.value].itemId == itemId && events[r.value].status == Ativo
    ensures forall i :: (if r.Some? then r.value else -1) < i < n ==>
      0 <= i && (events[i].itemId != itemId || events[i].status != Ativo)
  {
    if n == 0 then None
    else if events[n - 1].itemId == itemId && events[n - 1].status == Ativo then Some(n - 1)
    else ActiveEventBelow(events, itemId, n - 1)
  }

  function ActiveEventOf(events: seq<Event>, itemId: nat): Option<nat> {
    ActiveEventBelow(events, itemId, |events|)
  }

  predicate GcalTaken(events: seq<Event>, gcalId: string) {
    exists i :: 0 <= i < |events| && events[i].gcalId == Some(gcalId)
  }

  function CancelEvent(db: Db, id: nat): Db
    requires id < |db.events|
  {
    db.(events := db.events[id := db.events[id].(status := Cancelado)])
  }

  function ChainJob(id: nat, e: Event, r: Reminder): Job {
    var payload := ChainReminder(id, e.itemId, e.title, e.startAt, e.deslocamentoMin, r.stage);
    Job(REMINDER, payload, r.fireAt, None, JobPending, 0, None)
  }

  function ChainJobs(id: nat, e: Event, reminders: seq<Reminder>): seq<Job> {
    seq(|reminders|, i requires 0 <= i < |reminders| => ChainJob(id, e, reminders[i]))
  }

  function ChainOf(e: Event, env: Env): seq<Reminder> {
    Expand(e.startAt, e.deslocamentoMin, env.chain, env.now)
  }

  /** The whole chain of an event, then the flag that it was generated. */
  function WithChain(db: Db, id: nat, env: Env): Db
    requires id < |db.events|
  {
    var e := db.events[id];
    db.(jobs := db.jobs + ChainJobs(id, e, ChainOf(e, env)),
        events := db.events[id := e.(cadeiaGerada := true)])
  }

  predicate PendingReminderOf(job: Job, eventId: nat) {
    job.kind == REMINDER && job.status == JobPending && job.payload.ChainReminder? && job.payload.eventId == eventId
  }

  function CancelJob(job: Job, eventId: nat): Job {
    if PendingReminderOf(job, eventId) then job.(status := JobCancelled) else job
  }

  function CancelPendingJobs(jobs: seq<Job>, eventId: nat): seq<Job> {
    seq(|jobs|, i requires 0 <= i < |jobs| => CancelJob(jobs[i], eventId))
  }

  function CancelChain(db: Db, eventId: nat): Db
    requires eventId < |db.events|
  {
    CancelEvent(db, eventId).(jobs := CancelPendingJobs(db.jobs, eventId))
  }

  function AfterDrop(db: Db, itemId: nat): Db {
    match ActiveEventOf(db.events, itemId)
    case None => db
    case Some(id) => CancelChain(db, id)
  }

  /** The event that replaces a rescheduled one: the new start, and no Google id. */
  function Recreated(previous: Event, startAt: int): Event {
    Event(previous.itemId, None, previous.title, startAt, previous.endAt, previous.local, previous.deslocamentoMin,
          false, Ativo)
  }

  function AddAppointment(db: Db, e: Event, env: Env): Db {
    WithChain(db.(events := db.events + [e]), |db.events|, env)
  }

  function AfterReschedule(db: Db, itemId: nat, dueAt: int, env: Env): Db {
    match ActiveEventOf(db.events, itemId)
    case None => db
    case Some(id) => AddAppointment(CancelChain(db, id), Recreated(db.events[id], dueAt), env)
  }

  // ---- Commands -----------------------------------------------------------

  /** What the triage extracted; `due` is the date its expression resolves to, if it has one. */
  datatype DueText = NoDue | Unresolved | Resolved(at: int)
  datatype TriageItem = TriageItem(kind: ItemType, title: string, ambiguous: bool, due: DueText)

  datatype GoogleEvent = GoogleEvent(
    gcalId: string, title: string, startAt: Option<int>, endAt: Option<int>, location: Option<string>)

  datatype Command =
    | CreateItem(kind: ItemType, title: string, ambiguous: bool, priority: Option<int>, dueAt: Option<int>)
    | Complete(id: nat)
    | Drop(id: nat)
    | Archive(id: nat)
    | Snooze(id: nat, dueAt: Option<int>)        // `None`: a date text nobody recognised
    | Capture(item: TriageItem, message: nat, index: nat)
    | SyncEvent(google: GoogleEvent)
    | BrainEvent(google: GoogleEvent, message: nat)
    | SetGcalId(eventId: nat, gcalId: string)

  function CapturedItem(item: TriageItem, message: nat, index: nat): Item {
    Item(item.kind, item.title, if item.ambiguous || item.due.Unresolved? then Inbox else Ativa, None,
         if item.due.Resolved? then Some(item.due.at) else None, 0, Some(message), Some(index))
  }

  /** One position of a capture: the item with its event and chain, or its single reminder, in one transaction. */
  function CaptureOne(db: Db, item: TriageItem, message: nat, index: nat, env: Env): Result<Db, StoreError> {
    if SourceTaken(db.items, Some(message), Some(index)) then Failure(UniqueViolation)
    else
      var created := db.(items := db.items + [CapturedItem(item, message, index)]);
      var id := |db.items|;
      Success(
        if !item.due.Resolved? then created
        else if item.kind == Compromisso then
          AddAppointment(created,
            Event(id, None, item.title, item.due.at, None, None, env.deslocamentoMinDefault, false, Ativo), env)
        else
          created.(jobs := created.jobs
            + [Job(REMINDER, PointReminder(id, item.title), item.due.at, None, JobPending, 0, None)]))
  }

  /** Item, event and chain for an event that came with a Google id, in one transaction. */
  function AddGoogleAppointment(
      db: Db, google: GoogleEvent, startAt: int, message: Option<nat>, env: Env): Result<Db, StoreError> {
    if GcalTaken(db.events, google.gcalId) then Failure(UniqueViolation)
    else
      var item := Item(Compromisso, google.title, Ativa, None, Some(startAt), 0, message, None);
      Success(AddAppointment(db.(items := db.items + [item]),
        Event(|db.items|, Some(google.gcalId), google.title, startAt, google.endAt, google.location,
              env.deslocamentoMinDefault, false, Ativo), env))
  }

  predicate ActiveGcal(events: seq<Event>, gcalId: string) {
    exists i :: 0 <= i < |events| && events[i].gcalId == Some(gcalId) && events[i].status == Ativo
  }

  /** All-day events and events already active are skipped, and so is one whose insert hits the unique index. */
  function Sync(db: Db, google: GoogleEvent, env: Env): Db {
    if google.startAt.None? || ActiveGcal(db.events, google.gcalId) then db
    else
      match AddGoogleAppointment(db, google, google.startAt.value, None, env)
      case Success(next) => next
      case Failure(_) => db
  }

  /** First item recorded for a message. */
  function FirstOfMessage(items: seq<Item>, message: nat, n: nat): (r: Option<nat>)
    requires n <= |items|
    ensures r.Some? ==> r.value < n && items[r.value].sourceMessageId == Some(message)
  {
    if n == 0 then None
    else
      match FirstOfMessage(items, message, n - 1)
      case Some(id) => Some(id)
      case None => if items[n - 1].sourceMessageId == Some(message) then Some(n - 1) else None
  }

  /** The message already has its event, so a retry of the tool call changes nothing. */
  predicate BrainEventExists(db: Db, message: nat) {
    var first := FirstOfMessage(db.items, message, |db.items|);
    && first.Some?
    && ActiveEventOf(db.events, first.value).Some?
    && db.events[ActiveEventOf(db.events, first.value).value].gcalId.Some?
  }

  /** The effect of a command, or why it was refused; a refused command changes nothing. */
  function Try(db: Db, c: Command, env: Env): Result<Db, StoreError> {
    match c
    case CreateItem(kind, title, ambiguous, priority, dueAt) =>
      var item := Item(kind, title, if ambiguous then Inbox else Ativa, priority, dueAt, 0, None, None);
      Success(db.(items := db.items + [item]))
    case Complete(id) =>
      (match CheckTransition(db, id, Feita)
       case Failure(e) => Failure(e)
       case Success(_) => Success(SetStatus(db, id, Feita)))
    case Archive(id) =>
      (match CheckTransition(db, id, Arquivada)
       case Failure(e) => Failure(e)
       case Success(_) => Success(SetStatus(db, id, Arquivada)))
    case Drop(id) =>
      (match CheckTransition(db, id, Dropada)
       case Failure(e) => Failure(e)
       case Success(_) => Success(AfterDrop(SetStatus(db, id, Dropada), id)))
    case Snooze(id, dueAt) =>
      (match CheckTransition(db, id, Adiada)
       case Failure(e) => Failure(e)
       case Success(_) =>
         Success(if dueAt.None? then db else AfterReschedule(SetSnoozed(db, id, dueAt.value), id, dueAt.value, env)))
    case Capture(item, message, index) => CaptureOne(db, item, message, index, env)
    case SyncEvent(google) => Success(Sync(db, google, env))
    case BrainEvent(google, message) =>
      if google.startAt.None? || BrainEventExists(db, message) then Success(db)
      else AddGoogleAppointment(db, google, google.startAt.value, Some(message), env)
    case SetGcalId(eventId, gcalId) =>
      if eventId >= |db.events| then Success(db)
      else if exists i :: 0 <= i < |db.events| && i != eventId && db.events[i].gcalId == Some(gcalId)
      then Failure(UniqueViolation)
      else Success(db.(events := db.events[eventId := db.events[eventId].(gcalId := Some(gcalId))]))
  }

  function Refusal(r: Result<Db, StoreError>): Option<StoreError> {
    match r case Success(_) => None case Failure(e) => Some(e)
  }

  function Apply(db: Db, c: Command, env: Env): Db {
    match Try(db, c, env) case Success(next) => next case Failure(_) => db
  }
}
