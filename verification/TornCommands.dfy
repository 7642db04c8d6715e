/** What a crash inside a drop or a move leaves, and when it is harmless. */
module TornCommands {
  import opened Common
  import opened ExpandChain
  import opened TaskTables
  import opened ChainInvariants
  import opened CommandOutcomes
  import opened StoreChanges
  import opened ChainTheorems

  predicate AllCancelled(jobs: seq<Job>, eventId: nat, done: set<nat>) {
    forall i :: 0 <= i < |jobs| && PendingReminderOf(jobs[i], eventId) ==> i in done
  }

  /**
   * A tear that leaves the store consistent: nothing reminds of a cancelled event,
   * and no event starts off its item's date.
   */
  predicate Harmless(db: Db, tear: Tear) {
    Accepted(db, tear) && ActiveEventOf(db.events, tear.id).Some? ==>
      var event := ActiveEventOf(db.events, tear.id).value;
      match tear
      case TornDrop(_, point) => point.DropCancelling? ==> AllCancelled(db.jobs, event, point.done)
      case TornMove(_, dueAt, point) =>
        && (point.DateMoved? ==> db.events[event].startAt == dueAt)
        && (point.MoveCancelling? ==> AllCancelled(db.jobs, event, point.done))
  }

  // ---- When a tear is harmless -------------------------------------------

  lemma CancelAll(db: Db, id: nat, done: set<nat>)
    requires id < |db.events| && AllCancelled(db.jobs, id, done)
    ensures CancelPart(db, id, done) == CancelChain(db, id)
  {
  }

  lemma KeptAfterCancelIff(events: seq<Event>, id: nat, job: Job, done: bool)
    requires IsActive(events, id) && JobKept(events, job)
    ensures JobKept(events[id := events[id].(status := Cancelado)], if done then CancelJob(job, id) else job)
       <==> done || !PendingReminderOf(job, id)
  {
  }

  /** Cancelling part of a chain is consistent exactly when nothing of it is left pending. */
  lemma CancelPartIff(db: Db, id: nat, done: set<nat>)
    requires StoreInv(db) && IsActive(db.events, id)
    ensures StoreInv(CancelPart(db, id, done)) <==> AllCancelled(db.jobs, id, done)
  {
    hide StoreInv, CancelChain, JobKept;
    if AllCancelled(db.jobs, id, done) {
      CancelAll(db, id, done);
      CancelChainKeeps(db, id);
    } else {
      var i :| 0 <= i < |db.jobs| && PendingReminderOf(db.jobs[i], id) && i !in done;
      JobsAreKept(db, i);
      KeptAfterCancelIff(db.events, id, db.jobs[i], false);
      var next := CancelPart(db, id, done);
      if StoreInv(next) {
        JobsAreKept(next, i);
      }
    }
  }

  lemma JobsAreKept(db: Db, i: nat)
    requires StoreInv(db) && i < |db.jobs|
    ensures JobKept(db.events, db.jobs[i])
  {
    hide OneActive, DatesAgree, SourcesUnique, GcalUnique;
  }

  /** Moving the date alone is consistent exactly when it does not move. */
  lemma DateMovedIff(db: Db, itemId: nat, dueAt: int, event: nat)
    requires StoreInv(db) && itemId < |db.items| && IsActive(db.events, event) && db.events[event].itemId == itemId
    ensures StoreInv(SetSnoozed(db, itemId, dueAt)) <==> db.events[event].startAt == dueAt
  {
    hide RemindersLive, GcalUnique;
  }

  /** The item of an event being cancelled may move meanwhile. */
  lemma CancelPartMoves(db: Db, itemId: nat, dueAt: int, event: nat, done: set<nat>)
    requires StoreInv(db) && itemId < |db.items| && ActiveEventOf(db.events, itemId) == Some(event)
    ensures StoreInv(CancelPart(SetSnoozed(db, itemId, dueAt), event, done)) <==> AllCancelled(db.jobs, event, done)
  {
    hide StoreInv, CancelPart, SetSnoozed, AllCancelled;
    InvParts(db);
    ActiveFound(db.events, itemId);
    CancelPartIff(db, event, done);
    PartCommutes(db, itemId, dueAt, event, done);
    if AllCancelled(db.jobs, event, done) {
      MoveKeeps(CancelPart(db, event, done), itemId, dueAt);
    } else {
      BrokenStaysBroken(db, itemId, dueAt, event, done);
    }
  }

  lemma PartCommutes(db: Db, itemId: nat, dueAt: int, event: nat, done: set<nat>)
    requires itemId < |db.items| && event < |db.events|
    ensures CancelPart(SetSnoozed(db, itemId, dueAt), event, done)
         == SetSnoozed(CancelPart(db, event, done), itemId, dueAt)
    ensures CancelPart(db, event, done).events == db.events[event := db.events[event].(status := Cancelado)]
    ensures CancelPart(db, event, done).items == db.items
  {
  }

  lemma BrokenStaysBroken(db: Db, itemId: nat, dueAt: int, event: nat, done: set<nat>)
    requires StoreInv(db) && itemId < |db.items| && IsActive(db.events, event) && !AllCancelled(db.jobs, event, done)
    ensures !StoreInv(SetSnoozed(CancelPart(db, event, done), itemId, dueAt))
  {
    hide StoreInv, JobKept;
    var i :| 0 <= i < |db.jobs| && PendingReminderOf(db.jobs[i], event) && i !in done;
    JobsAreKept(db, i);
    KeptAfterCancelIff(db.events, event, db.jobs[i], false);
    var next := SetSnoozed(CancelPart(db, event, done), itemId, dueAt);
    if StoreInv(next) {
      JobsAreKept(next, i);
    }
  }

  /** The new event is consistent from its insert on, however much of its chain is there. */
  lemma AddPartKeeps(db: Db, e: Event, env: Env, added: nat)
    requires StoreInv(db) && e.status == Ativo && e.itemId < |db.items|
    requires db.items[e.itemId].dueAt == Some(e.startAt)
    requires NoActiveEvent(db.events, e.itemId) && e.gcalId.None?
    ensures StoreInv(AddPart(db, e, env, added))
  {
    hide Expand, JobKept, SourcesUnique;
    var next, id := AddPart(db, e, env, added), |db.events|;
    var chain := ChainOf(e, env);
    var reminders := if added <= |chain| then chain[..added] else chain;
    forall i | 0 <= i < |next.jobs| ensures JobKept(next.events, next.jobs[i]) {
      if i < |db.jobs| {
        JobsAreKept(db, i);
        LargerTableKeepsJob(db.events, e, db.jobs[i]);
      } else {
        var r := reminders[i - |db.jobs|];
        assert r in chain;
        ChainContents(e.startAt, e.deslocamentoMin, env.chain, env.now);
        UnflaggedJobKept(next.events, id, e, r);
      }
    }
  }

  lemma UnflaggedJobKept(events: seq<Event>, id: nat, e: Event, r: Reminder)
    requires id < |events| && events[id] == e && e.status == Ativo && r.fireAt < e.startAt
    ensures JobKept(events, ChainJob(id, e, r))
  {
  }

  lemma MovedAndCancelled(db: Db, itemId: nat, dueAt: int, event: nat)
    requires StoreInv(db) && itemId < |db.items| && ActiveEventOf(db.events, itemId) == Some(event)
    ensures var next := CancelChain(SetSnoozed(db, itemId, dueAt), event);
      && StoreInv(next) && NoActiveEvent(next.events, itemId)
      && itemId < |next.items| && next.items[itemId].dueAt == Some(dueAt) && |next.events| == |db.events|
  {
    hide StoreInv, CancelChain;
    InvParts(db);
    ActiveFound(db.events, itemId);
    CancelChainKeeps(db, event);
    CancelChainEvents(db, event);
    MoveKeeps(CancelChain(db, event), itemId, dueAt);
    CancelCommutes(db, event, itemId, dueAt);
  }

  /**
   * At whatever statement a drop or a move dies, the store it leaves behind is
   * consistent if and only if the tear is harmless.
   */
  lemma TornIff(db: Db, tear: Tear, env: Env)
    requires StoreInv(db)
    ensures StoreInv(Torn(db, tear, env)) <==> Harmless(db, tear)
  {
    hide StoreInv, CancelPart, AddPart, CancelChain, AllCancelled, CanTransition;
    InvParts(db);
    if Accepted(db, tear) {
      ActiveFound(db.events, tear.id);
      var found := ActiveEventOf(db.events, tear.id);
      match tear
      case TornDrop(id, point) =>
        SetStatusKeeps(db, id, Dropada);
        if found.Some? && point.DropCancelling? {
          CancelPartIff(SetStatus(db, id, Dropada), found.value, point.done);
        }
      case TornMove(id, dueAt, point) =>
        if found.None? {
          MoveKeeps(db, id, dueAt);
        } else {
          match point
          case DateMoved => DateMovedIff(db, id, dueAt, found.value);
          case MoveCancelling(done) => CancelPartMoves(db, id, dueAt, found.value, done);
          case Chaining(added) =>
            MovedAndCancelled(db, id, dueAt, found.value);
            AddPartKeeps(CancelChain(SetSnoozed(db, id, dueAt), found.value), Recreated(db.events[found.value], dueAt),
                         env, added);
        }
    }
  }

  /** A drop or a move of an unknown or closed item is refused before its first statement, so nothing is torn. */
  lemma RefusedIsNotTorn(db: Db, tear: Tear, env: Env)
    ensures Accepted(db, tear) <==> tear.id < |db.items| && !Closed(db.items[tear.id])
    ensures !Accepted(db, tear) ==> Torn(db, tear, env) == db
  {
  }

  /**
   * What a consistent store may still lack after a tear: a dropped item keeps
   * its appointment if its event was not reached; a moved one has no appointment
   * once the old event is cancelled, and afterwards just the first reminders of
   * its new chain, all of them exactly when the last insert was reached.
   */
  lemma TornLeaves(db: Db, tear: Tear, env: Env)
    requires StoreInv(db) && tear.id < |db.items| && !Closed(db.items[tear.id])
    requires ActiveEventOf(db.events, tear.id).Some?
    ensures var event := ActiveEventOf(db.events, tear.id).value;
      var next := Torn(db, tear, env);
      match tear
      case TornDrop(id, point) =>
        && next.items[id].status == Dropada
        && (if point.StatusSet? then IsActive(next.events, event) else NoActiveEvent(next.events, id))
      case TornMove(id, dueAt, point) =>
        && next.items[id].dueAt == Some(dueAt)
        && (match point
            case DateMoved => IsActive(next.events, event)
            case MoveCancelling(_) => NoActiveEvent(next.events, id)
            case Chaining(added) =>
              var chain := ChainOf(Recreated(db.events[event], dueAt), env);
              && ActiveEventOf(next.events, id) == Some(|db.events|) && !next.events[|db.events|].cadeiaGerada
              && PendingChain(next.jobs, |db.events|) == (if added <= |chain| then chain[..added] else chain)
              && (PendingChain(next.jobs, |db.events|) == chain <==> added >= |chain|))
  {
    hide StoreInv, ActiveEventBelow, Expand, PendingChain, CanTransition, Closed;
    InvParts(db);
    ActiveFound(db.events, tear.id);
    RefusedIsNotTorn(db, tear, env);
    var event := ActiveEventOf(db.events, tear.id).value;
    if tear.TornMove? && tear.movePoint.Chaining? {
      ChainLeft(db, tear.id, tear.dueAt, env, tear.movePoint.added, event);
    }
  }

  lemma ChainLeft(db: Db, id: nat, dueAt: int, env: Env, added: nat, event: nat)
    requires StoreInv(db) && id < |db.items| && ActiveEventOf(db.events, id) == Some(event)
    ensures var e := Recreated(db.events[event], dueAt);
      var next := AddPart(CancelChain(SetSnoozed(db, id, dueAt), event), e, env, added);
      var chain := ChainOf(e, env);
      && next.items[id].dueAt == Some(dueAt) && |next.events| == |db.events| + 1 && next.events[|db.events|] == e
      && ActiveEventOf(next.events, id) == Some(|db.events|)
      && PendingChain(next.jobs, |db.events|) == if added <= |chain| then chain[..added] else chain
  {
    hide StoreInv, ActiveEventBelow, Expand, PendingChain, CancelChain;
    var e := Recreated(db.events[event], dueAt);
    var before := CancelChain(SetSnoozed(db, id, dueAt), event);
    var next := AddPart(before, e, env, added);
    var chain := ChainOf(e, env);
    var reminders := if added <= |chain| then chain[..added] else chain;
    MovedAndCancelled(db, id, dueAt, event);
    LastIsActive(next.events, id);
    NoJobsBeyond(before, |db.events|);
    PendingChainConcat(before.jobs, ChainJobs(|db.events|, e, reminders), |db.events|);
    OwnChain(|db.events|, e, reminders);
    CancelChainEvents(SetSnoozed(db, id, dueAt), event);
  }
}
