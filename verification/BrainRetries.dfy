/** The brain's tool call that creates an appointment, and when a retry of it changes nothing. */
module BrainRetries {
  import opened Common
  import opened ExpandChain
  import opened TaskTables
  import opened ChainInvariants
  import opened StoreChanges
  import opened ChainTheorems

  /** A call changes nothing exactly when the message already has its event or the Google id was ever seen. */
  lemma BrainGuardIff(db: Db, google: GoogleEvent, message: nat, env: Env)
    requires google.startAt.Some?
    ensures Apply(db, BrainEvent(google, message), env) == db
       <==> BrainEventExists(db, message) || GcalTaken(db.events, google.gcalId)
  {
    hide Expand, BrainEventExists;
  }

  lemma {:induction false} FirstIsFirst(items: seq<Item>, message: nat, n: nat, k: nat)
    requires k < n <= |items| && items[k].sourceMessageId == Some(message)
    requires forall i :: 0 <= i < k ==> items[i].sourceMessageId != Some(message)
    ensures FirstOfMessage(items, message, n) == Some(k)
  {
    if k < n - 1 {
      FirstIsFirst(items, message, n - 1, k);
    }
  }

  /** The first tool call of a message creates its appointment, and repeating the call then changes nothing. */
  lemma BrainRetryIsNoop(db: Db, google: GoogleEvent, message: nat, env: Env, again: GoogleEvent, later: Env)
    requires google.startAt.Some? && !GcalTaken(db.events, google.gcalId)
    requires forall i :: 0 <= i < |db.items| ==> db.items[i].sourceMessageId != Some(message)
    ensures var next := Apply(db, BrainEvent(google, message), env);
      && |next.items| == |db.items| + 1 && BrainEventExists(next, message)
      && Try(next, BrainEvent(again, message), later) == Success(next)
  {
    hide Expand, ActiveEventBelow;
    var next := Apply(db, BrainEvent(google, message), env);
    FirstIsNone(db.items, message, |db.items|);
    FirstIsFirst(next.items, message, |next.items|, |db.items|);
    LastIsActive(next.events, |db.items|);
  }

  lemma {:induction false} FirstIsNone(items: seq<Item>, message: nat, n: nat)
    requires n <= |items| && forall i :: 0 <= i < n ==> items[i].sourceMessageId != Some(message)
    ensures FirstOfMessage(items, message, n) == None
  {
    if n > 0 {
      FirstIsNone(items, message, n - 1);
    }
  }

  // ---- What a change does to events --------------------------------------

  /** An accepted update that gives the event `k` a Google id. */
  predicate Names(db: Db, x: Change, k: nat) {
    && x.Issued? && x.command.SetGcalId? && x.command.eventId == k && k < |db.events|
    && Try(db, x.command, x.env).Success?
  }

  /** An accepted drop of the item or move of its date, unless a crash cut it short before the event was cancelled. */
  predicate Ends(db: Db, x: Change, itemId: nat) {
    match x
    case Issued(c, env) =>
      && (c == Drop(itemId) || (c.Snooze? && c.id == itemId && c.dueAt.Some?))
      && Try(db, c, env).Success?
    case Died(tear, _) =>
      && tear.id == itemId && Accepted(db, tear)
      && (if tear.TornDrop? then tear.dropPoint.DropCancelling? else !tear.movePoint.DateMoved?)
    case Progress(_) => false
  }

  predicate Named(db: Db, log: seq<Change>, k: nat) {
    log != [] && (Named(db, log[..|log| - 1], k) || Names(RunChanges(db, log[..|log| - 1]), log[|log| - 1], k))
  }

  predicate Ended(db: Db, log: seq<Change>, itemId: nat) {
    log != [] && (Ended(db, log[..|log| - 1], itemId) || Ends(RunChanges(db, log[..|log| - 1]), log[|log| - 1], itemId))
  }

  /** An event row keeps its item and stays cancelled, and only an accepted update gives it a Google id. */
  predicate EventEvolves(a: Event, b: Event, named: bool) {
    && b.itemId == a.itemId && (a.status == Cancelado ==> b.status == Cancelado)
    && (b.gcalId.Some? <==> a.gcalId.Some? || named)
  }

  /** Only an accepted drop or move of its item cancels an active event, and then it does. */
  predicate EventsEvolve(db: Db, x: Change) {
    var next := Changed(db, x);
    && |db.events| <= |next.events|
    && (forall k :: 0 <= k < |db.events| ==>
          && EventEvolves(db.events[k], next.events[k], Names(db, x, k))
          && (db.events[k].status == Ativo ==>
                (next.events[k].status == Cancelado <==> Ends(db, x, db.events[k].itemId))))
    && (forall k :: |db.events| <= k < |next.events| ==>
          next.events[k].itemId >= |db.items| || next.events[k].gcalId.None?)
  }

  lemma CancelEvolves(db: Db, id: nat)
    requires id < |db.events|
    ensures CancelChain(db, id).events == db.events[id := db.events[id].(status := Cancelado)]
    ensures CancelChain(db, id).items == db.items
  {
    CancelChainEvents(db, id);
  }

  lemma AddEvolves(db: Db, e: Event, env: Env)
    ensures AddAppointment(db, e, env).events == db.events + [e.(cadeiaGerada := true)]
    ensures AddAppointment(db, e, env).items == db.items
  {
    hide Expand;
  }

  lemma EventsOfDrop(db: Db, x: Change)
    requires Sound(db) && x.Issued? && x.command.Drop?
    ensures EventsEvolve(db, x)
  {
    hide Sound, AfterDrop, ActiveEventBelow;
    SoundParts(db);
    ActiveFound(db.events, x.command.id);
    DropEvolves(db, x.command.id);
  }

  lemma EventsOfMove(db: Db, x: Change)
    requires Sound(db) && x.Issued? && x.command.Snooze?
    ensures EventsEvolve(db, x)
  {
    hide Sound, AfterReschedule, ActiveEventBelow;
    SoundParts(db);
    if x.command.dueAt.Some? {
      ActiveFound(db.events, x.command.id);
      MoveEvolves(db, x.command.id, x.command.dueAt.value, x.env);
    }
  }

  lemma EventsOfTear(db: Db, x: Change)
    requires Sound(db) && x.Died?
    ensures EventsEvolve(db, x)
  {
    hide Sound, ActiveEventBelow, Torn, Accepted;
    SoundParts(db);
    ActiveFound(db.events, x.tear.id);
    TearEvents(db, x.tear, x.env);
  }

  /** A tear leaves the events alone, cancels the item's active event, or replaces it. */
  lemma TearEvents(db: Db, tear: Tear, env: Env)
    ensures var found := ActiveEventOf(db.events, tear.id);
      var cancels := if tear.TornDrop? then tear.dropPoint.DropCancelling? else !tear.movePoint.DateMoved?;
      Torn(db, tear, env).events
      == if !Accepted(db, tear) || found.None? || !cancels then db.events
         else db.events[found.value := db.events[found.value].(status := Cancelado)]
              + if tear.TornMove? && tear.movePoint.Chaining?
                then [Recreated(db.events[found.value], tear.dueAt)] else []
  {
    hide ActiveEventBelow, CancelSome, CancelPendingJobs, ChainOf, ChainJobs, CanTransition;
  }

  lemma EventsOfCapture(db: Db, x: Change)
    requires x.Issued? && x.command.Capture?
    ensures EventsEvolve(db, x)
  {
    hide AddAppointment;
    var item := x.command.item;
    var created := db.(items := db.items + [CapturedItem(item, x.command.message, x.command.index)]);
    if item.due.Resolved? {
      AddEvolves(created, Event(|db.items|, None, item.title, item.due.at, None, None, x.env.deslocamentoMinDefault,
                                false, Ativo), x.env);
    }
  }

  lemma EventsOfGoogle(db: Db, x: Change)
    requires x.Issued? && (x.command.SyncEvent? || x.command.BrainEvent?)
    ensures EventsEvolve(db, x)
  {
    hide AddGoogleAppointment, BrainEventExists;
    match x.command
    case SyncEvent(google) => GoogleEvolves(db, google, None, x.env);
    case BrainEvent(google, message) => GoogleEvolves(db, google, Some(message), x.env);
  }

  lemma ChangeEvolves(db: Db, x: Change)
    requires Sound(db)
    ensures EventsEvolve(db, x)
  {
    hide Sound, AfterDrop, AfterReschedule, AddGoogleAppointment, CaptureOne, JobsProgress, BrainEventExists,
         Torn, Accepted;
    if x.Died? { EventsOfTear(db, x); }
    if x.Issued? {
      match x.command
      case Drop(_) => EventsOfDrop(db, x);
      case Snooze(_, _) => EventsOfMove(db, x);
      case Capture(_, _, _) => EventsOfCapture(db, x);
      case SyncEvent(_) => EventsOfGoogle(db, x);
      case BrainEvent(_, _) => EventsOfGoogle(db, x);
      case _ =>
    }
  }

  lemma GoogleEvolves(db: Db, google: GoogleEvent, message: Option<nat>, env: Env)
    ensures google.startAt.Some? ==>
      var r := AddGoogleAppointment(db, google, google.startAt.value, message, env);
      r.Success? ==> |r.value.events| == |db.events| + 1 && r.value.events[..|db.events|] == db.events
                     && r.value.events[|db.events|].itemId == |db.items|
  {
    hide Expand, AddAppointment;
    if google.startAt.Some? {
      var item := Item(Compromisso, google.title, Ativa, None, google.startAt, 0, message, None);
      AddEvolves(db.(items := db.items + [item]),
        Event(|db.items|, Some(google.gcalId), google.title, google.startAt.value, google.endAt, google.location,
              env.deslocamentoMinDefault, false, Ativo), env);
    }
  }

  lemma DropEvolves(db: Db, itemId: nat)
    ensures itemId < |db.items| ==>
      AfterDrop(SetStatus(db, itemId, Dropada), itemId).events
      == match ActiveEventOf(db.events, itemId)
         case None => db.events
         case Some(id) => db.events[id := db.events[id].(status := Cancelado)]
  {
    hide CancelChain, ActiveEventBelow;
    if itemId < |db.items| && ActiveEventOf(db.events, itemId).Some? {
      CancelEvolves(SetStatus(db, itemId, Dropada), ActiveEventOf(db.events, itemId).value);
    }
  }

  lemma MoveEvolves(db: Db, itemId: nat, dueAt: int, env: Env)
    ensures itemId < |db.items| ==>
      AfterReschedule(SetSnoozed(db, itemId, dueAt), itemId, dueAt, env).events
      == match ActiveEventOf(db.events, itemId)
         case None => db.events
         case Some(id) =>
           db.events[id := db.events[id].(status := Cancelado)]
           + [Recreated(db.events[id], dueAt).(cadeiaGerada := true)]
  {
    hide CancelChain, AddAppointment, ActiveEventBelow;
    if itemId < |db.items| && ActiveEventOf(db.events, itemId).Some? {
      var id := ActiveEventOf(db.events, itemId).value;
      var moved := SetSnoozed(db, itemId, dueAt);
      CancelEvolves(moved, id);
      AddEvolves(CancelChain(moved, id), Recreated(db.events[id], dueAt), env);
    }
  }

  // ---- The retry over any sequence of changes ----------------------------

  /** The event `id` of the first call: whose item it is, and where it stands after the changes of `log`. */
  predicate Tracks(db: Db, itemId: nat, id: nat, message: nat) {
    && FirstOfMessage(db.items, message, |db.items|) == Some(itemId)
    && itemId < |db.items| && id < |db.events| && db.events[id].itemId == itemId && db.events[id].gcalId.Some?
  }

  ghost predicate Followed(start: Db, log: seq<Change>, itemId: nat, id: nat, message: nat) {
    var db := RunChanges(start, log);
    && Tracks(db, itemId, id, message)
    && (IsActive(db.events, id) <==> !Ended(start, log, itemId))
    && (forall k: nat :: k >= |db.events| ==> !Named(start, log, k))
    && (forall k: nat :: k < |db.events| && k != id && db.events[k].itemId == itemId ==>
          (db.events[k].gcalId.Some? <==> Named(start, log, k)))
  }

  lemma {:induction false} ChangesFollowed(start: Db, log: seq<Change>, itemId: nat, id: nat, message: nat)
    requires Sound(start) && Followed(start, [], itemId, id, message)
    ensures Sound(RunChanges(start, log)) && Followed(start, log, itemId, id, message)
  {
    hide Sound, Changed, Names, Ends;
    ChangesSound(start, log);
    if log != [] {
      var before, x := log[..|log| - 1], log[|log| - 1];
      ChangesFollowed(start, before, itemId, id, message);
      StepFollowed(start, before, x, itemId, id, message);
      assert before + [x] == log;
    }
  }

  lemma LogGrows(start: Db, before: seq<Change>, x: Change)
    ensures var log := before + [x];
      var db := RunChanges(start, before);
      && RunChanges(start, log) == Changed(db, x)
      && (forall itemId :: Ended(start, log, itemId) <==> Ended(start, before, itemId) || Ends(db, x, itemId))
      && (forall k :: Named(start, log, k) <==> Named(start, before, k) || Names(db, x, k))
  {
    hide Changed, Ends, Names;
    assert (before + [x])[..|before|] == before;
  }

  lemma StepFollowed(start: Db, before: seq<Change>, x: Change, itemId: nat, id: nat, message: nat)
    requires Sound(RunChanges(start, before)) && Followed(start, before, itemId, id, message)
    ensures Followed(start, before + [x], itemId, id, message)
  {
    hide Sound, Changed, Ends, Names, Named, Ended, RunChanges;
    var db := RunChanges(start, before);
    LogGrows(start, before, x);
    ChangeEvolves(db, x);
    ChangeKeepsSources(db, x);
    SameMessages(db.items, Changed(db, x).items, message, itemId);
    forall k: nat | k >= |db.events| ensures !Names(db, x, k) {
      OnlyRowsAreNamed(db, x, k);
    }
  }

  lemma OnlyRowsAreNamed(db: Db, x: Change, k: nat)
    requires k >= |db.events|
    ensures !Names(db, x, k)
  {
  }

  lemma SameMessages(a: seq<Item>, b: seq<Item>, message: nat, k: nat)
    requires KeepsSources(a, b) && FirstOfMessage(a, message, |a|) == Some(k)
    ensures FirstOfMessage(b, message, |b|) == Some(k)
  {
    FirstHasNoneBefore(a, message, |a|);
    FirstIsFirst(b, message, |b|, k);
  }

  lemma {:induction false} FirstHasNoneBefore(items: seq<Item>, message: nat, n: nat)
    requires n <= |items|
    ensures var first := FirstOfMessage(items, message, n);
      forall i :: 0 <= i < (if first.Some? then first.value else n) ==> items[i].sourceMessageId != Some(message)
  {
    if n > 0 {
      FirstHasNoneBefore(items, message, n - 1);
    }
  }

  lemma FirstCall(db: Db, google: GoogleEvent, message: nat, env: Env)
    requires Sound(db) && google.startAt.Some? && !GcalTaken(db.events, google.gcalId)
    requires forall i :: 0 <= i < |db.items| ==> db.items[i].sourceMessageId != Some(message)
    ensures var start := Apply(db, BrainEvent(google, message), env);
      && Sound(start) && IsActive(start.events, |db.events|)
      && Followed(start, [], |db.items|, |db.events|, message)
  {
    hide Expand, Sound, GcalTaken;
    var start := Apply(db, BrainEvent(google, message), env);
    SoundParts(db);
    CommandSound(db, BrainEvent(google, message), env);
    FirstIsNone(db.items, message, |db.items|);
    FirstIsFirst(start.items, message, |start.items|, |db.items|);
  }

  /**
   * After the first call of a message, and whatever changes follow, crashes
   * inside commands included, its event is active exactly while no accepted drop
   * or move of its item got as far as cancelling it. A retry then changes nothing;
   * afterwards it does only if the event that replaced it was given a Google id
   * meanwhile, or if the id it brings was seen before. In every other case it
   * creates a second appointment for the message.
   */
  lemma BrainRetryIff(
      db: Db, google: GoogleEvent, message: nat, env: Env, log: seq<Change>, again: GoogleEvent, later: Env)
    requires Sound(db) && google.startAt.Some? && again.startAt.Some? && !GcalTaken(db.events, google.gcalId)
    requires forall i :: 0 <= i < |db.items| ==> db.items[i].sourceMessageId != Some(message)
    ensures var start := Apply(db, BrainEvent(google, message), env);
      var store := RunChanges(start, log);
      var next := Apply(store, BrainEvent(again, message), later);
      var replacedAndNamed := exists k: nat ::
        IsActive(store.events, k) && k != |db.events| && store.events[k].itemId == |db.items| && Named(start, log, k);
      && (IsActive(store.events, |db.events|) <==> !Ended(start, log, |db.items|))
      && (next == store <==>
            !Ended(start, log, |db.items|) || replacedAndNamed || GcalTaken(store.events, again.gcalId))
      && (next != store ==>
            && |next.items| == |store.items| + 1 && next.items[|store.items|].sourceMessageId == Some(message)
            && |next.events| == |store.events| + 1 && IsActive(next.events, |store.events|))
  {
    hide Sound, Apply, Named, Ended, GcalTaken, RunChanges;
    var start := Apply(db, BrainEvent(google, message), env);
    var store := RunChanges(start, log);
    FirstCall(db, google, message, env);
    ChangesFollowed(start, log, |db.items|, |db.events|, message);
    SoundParts(store);
    ActiveFound(store.events, |db.items|);
    BrainGuardIff(store, again, message, later);
    RefusedOrAdded(store, again, message, later);
  }

  lemma RefusedOrAdded(db: Db, google: GoogleEvent, message: nat, env: Env)
    requires google.startAt.Some?
    ensures var next := Apply(db, BrainEvent(google, message), env);
      next != db ==>
        && |next.items| == |db.items| + 1 && next.items[|db.items|].sourceMessageId == Some(message)
        && |next.events| == |db.events| + 1 && IsActive(next.events, |db.events|)
  {
    hide Expand, BrainEventExists;
  }

  /**
   * Once the appointment is moved or dropped the guard no longer sees it: a moved
   * one has a new event without a Google id.
   */
  lemma MovedOrDroppedIsForgotten(db: Db, message: nat, dueAt: int, env: Env)
    requires StoreInv(db) && BrainEventExists(db, message)
    ensures var itemId := FirstOfMessage(db.items, message, |db.items|).value;
      && !BrainEventExists(AfterReschedule(SetSnoozed(db, itemId, dueAt), itemId, dueAt, env), message)
      && !BrainEventExists(AfterDrop(SetStatus(db, itemId, Dropada), itemId), message)
  {
    hide StoreInv, Expand, ActiveEventBelow, PendingChain, CancelChain, AddAppointment;
    var itemId := FirstOfMessage(db.items, message, |db.items|).value;
    RescheduleReplacesChain(db, itemId, dueAt, env);
    ChainsLeaveItems(SetSnoozed(db, itemId, dueAt), itemId, dueAt, env);
    SameMessages(db.items, SetSnoozed(db, itemId, dueAt).items, message, itemId);
    var dropped := SetStatus(db, itemId, Dropada);
    SetStatusKeeps(db, itemId, Dropada);
    DroppedKeeps(dropped, itemId);
    ChainsLeaveItems(dropped, itemId, dueAt, env);
    SameMessages(db.items, dropped.items, message, itemId);
    NoneActive(AfterDrop(dropped, itemId).events, itemId);
  }

  lemma NoneActive(events: seq<Event>, itemId: nat)
    requires NoActiveEvent(events, itemId)
    ensures ActiveEventOf(events, itemId).None?
  {
  }
}
