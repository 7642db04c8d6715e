/** Promises about appointments: rescheduling and synchronisation. */
module ChainTheorems {
  import opened Common
  import opened ExpandChain
  import opened TaskTables
  import opened ChainInvariants

  // ---- Rescheduling replaces the chain -----------------------------------

  /** The pending reminders of an event, in id order. */
  function PendingChain(jobs: seq<Job>, eventId: nat): seq<Reminder> {
    if jobs == [] then []
    else
      var last := jobs[|jobs| - 1];
      PendingChain(jobs[..|jobs| - 1], eventId)
      + if PendingReminderOf(last, eventId) then [Reminder(last.payload.stage, last.nextRunAt)] else []
  }

  lemma {:induction false} PendingChainConcat(a: seq<Job>, b: seq<Job>, eventId: nat)
    ensures PendingChain(a + b, eventId) == PendingChain(a, eventId) + PendingChain(b, eventId)
  {
    if b == [] {
      assert a + b == a;
    } else {
      assert (a + b)[..|a + b| - 1] == a + b[..|b| - 1];
      PendingChainConcat(a, b[..|b| - 1], eventId);
    }
  }

  lemma {:induction false} NoPendingChain(jobs: seq<Job>, eventId: nat)
    requires forall i :: 0 <= i < |jobs| ==> !PendingReminderOf(jobs[i], eventId)
    ensures PendingChain(jobs, eventId) == []
  {
    if jobs != [] {
      NoPendingChain(jobs[..|jobs| - 1], eventId);
    }
  }

  lemma {:induction false} OwnChain(id: nat, e: Event, reminders: seq<Reminder>)
    ensures PendingChain(ChainJobs(id, e, reminders), id) == reminders
  {
    var jobs := ChainJobs(id, e, reminders);
    if jobs != [] {
      var n := |jobs| - 1;
      assert jobs[..n] == ChainJobs(id, e, reminders[..n]);
      OwnChain(id, e, reminders[..n]);
      assert reminders == reminders[..n] + [reminders[n]];
    }
  }

  lemma {:induction false} CancelledChain(jobs: seq<Job>, eventId: nat, other: nat)
    ensures PendingChain(CancelPendingJobs(jobs, eventId), other)
         == if other == eventId then [] else PendingChain(jobs, other)
  {
    if jobs != [] {
      var n := |jobs| - 1;
      assert CancelPendingJobs(jobs, eventId)[..n] == CancelPendingJobs(jobs[..n], eventId);
      CancelledChain(jobs[..n], eventId, other);
    }
  }

  /**
   * Moving an appointment refines "replace the chain": the new event's pending
   * reminders are exactly the expansion for the new date, every other event of
   * the item is left with none, the chains of other items are untouched, and no
   * job row changes except pending ones of the old chain, whose status alone
   * becomes cancelled.
   */
  lemma RescheduleReplacesChain(db: Db, itemId: nat, dueAt: int, env: Env)
    requires StoreInv(db) && itemId < |db.items| && ActiveEventOf(db.events, itemId).Some?
    ensures var prev := ActiveEventOf(db.events, itemId).value;
      var next := AfterReschedule(SetSnoozed(db, itemId, dueAt), itemId, dueAt, env);
      var id := |db.events|;
      && ActiveEventOf(next.events, itemId) == Some(id)
      && next.events[id] == Recreated(db.events[prev], dueAt).(cadeiaGerada := true)
      && PendingChain(next.jobs, id) == Expand(dueAt, db.events[prev].deslocamentoMin, env.chain, env.now)
      && (forall k: nat :: k < id && db.events[k].itemId == itemId ==> PendingChain(next.jobs, k) == [])
      && (forall k: nat :: k < id && db.events[k].itemId != itemId ==>
            PendingChain(next.jobs, k) == PendingChain(db.jobs, k))
      && |db.jobs| <= |next.jobs|
      && (forall j :: 0 <= j < |db.jobs| ==> next.jobs[j] == CancelJob(db.jobs[j], prev))
  {
    hide StoreInv, PendingChain, Expand, ActiveEventBelow;
    var prev := ActiveEventOf(db.events, itemId).value;
    var id := |db.events|;
    var e := Recreated(db.events[prev], dueAt);
    var moved := SetSnoozed(db, itemId, dueAt);
    var next := AfterReschedule(moved, itemId, dueAt, env);
    var kept := CancelPendingJobs(db.jobs, prev);
    var added := ChainJobs(id, e, ChainOf(e, env));
    assert next.jobs == kept + added;
    assert OneActive(db.events) by { InvParts(db); }
    ActiveFound(db.events, itemId);
    assert ActiveEventOf(next.events, itemId) == Some(id) by { LastIsActive(next.events, itemId); }
    OwnChain(id, e, ChainOf(e, env));
    NoJobsBeyond(db, id);
    forall k: nat | k <= id
      ensures PendingChain(next.jobs, k)
           == (if k == prev then [] else PendingChain(db.jobs, k)) + if k == id then ChainOf(e, env) else []
    {
      PendingChainConcat(kept, added, k);
      CancelledChain(db.jobs, prev, k);
      if k != id { NoPendingChain(added, k); }
    }
    forall k: nat | k < id && db.events[k].itemId == itemId ensures PendingChain(next.jobs, k) == [] {
      if k != prev { CancelledEventHasNone(db, k); }
    }
  }

  lemma LastIsActive(events: seq<Event>, itemId: nat)
    requires events != [] && events[|events| - 1].status == Ativo && events[|events| - 1].itemId == itemId
    ensures ActiveEventOf(events, itemId) == Some(|events| - 1)
  {
  }

  lemma NoJobsBeyond(db: Db, id: nat)
    requires StoreInv(db) && id >= |db.events|
    ensures PendingChain(db.jobs, id) == []
  {
    hide OneActive, DatesAgree, SourcesUnique, GcalUnique;
    forall i | 0 <= i < |db.jobs| ensures !PendingReminderOf(db.jobs[i], id) {
      assert JobKept(db.events, db.jobs[i]);
    }
    NoPendingChain(db.jobs, id);
  }

  lemma CancelledEventHasNone(db: Db, id: nat)
    requires StoreInv(db) && id < |db.events| && db.events[id].status == Cancelado
    ensures PendingChain(db.jobs, id) == []
  {
    hide OneActive, DatesAgree, SourcesUnique, GcalUnique;
    forall i | 0 <= i < |db.jobs| ensures !PendingReminderOf(db.jobs[i], id) {
      assert JobKept(db.events, db.jobs[i]);
    }
    NoPendingChain(db.jobs, id);
  }

  // ---- Google synchronisation --------------------------------------------

  /**
   * A sync either changes nothing or adds one item with one active event and
   * its chain; it adds them exactly when the event has a start time and no
   * event of the store, active or cancelled, ever had its Google id.
   */
  lemma SyncAllOrNothing(db: Db, google: GoogleEvent, env: Env)
    ensures var next := Sync(db, google, env);
      if google.startAt.Some? && !GcalTaken(db.events, google.gcalId)
      then && |next.items| == |db.items| + 1 && next.items[..|db.items|] == db.items
           && |next.events| == |db.events| + 1 && next.events[..|db.events|] == db.events
           && IsActive(next.events, |db.events|) && next.events[|db.events|].gcalId == Some(google.gcalId)
           && next.events[|db.events|].itemId == |db.items| && next.events[|db.events|].cadeiaGerada
           && next.items[|db.items|].dueAt == google.startAt == Some(next.events[|db.events|].startAt)
           && |db.jobs| <= |next.jobs| && next.jobs[..|db.jobs|] == db.jobs
      else next == db
  {
    hide Expand;
  }

  /** Syncing the same event again changes nothing. */
  lemma SyncIdempotent(db: Db, google: GoogleEvent, env: Env, later: Env)
    ensures Sync(Sync(db, google, env), google, later) == Sync(db, google, env)
  {
    hide Sync;
    SyncAllOrNothing(db, google, env);
    SyncAllOrNothing(Sync(db, google, env), google, later);
    if google.startAt.Some? && !GcalTaken(db.events, google.gcalId) {
      assert Sync(db, google, env).events[|db.events|].gcalId == Some(google.gcalId);
    }
  }

  /** An event whose appointment was dropped is never brought back by a sync. */
  lemma DroppedNeverResynced(db: Db, id: nat, google: GoogleEvent, env: Env)
    requires StoreInv(db) && IsActive(db.events, id) && db.events[id].gcalId == Some(google.gcalId)
    ensures Sync(AfterDrop(db, db.events[id].itemId), google, env) == AfterDrop(db, db.events[id].itemId)
    ensures NoActiveEvent(AfterDrop(db, db.events[id].itemId).events, db.events[id].itemId)
  {
    hide Sync, StoreInv, CancelChain;
    var next := AfterDrop(db, db.events[id].itemId);
    InvParts(db);
    ActiveFound(db.events, db.events[id].itemId);
    CancelChainEvents(db, ActiveEventOf(db.events, db.events[id].itemId).value);
    DroppedKeeps(db, db.events[id].itemId);
    assert next.events[id].gcalId == Some(google.gcalId);
    SyncAllOrNothing(next, google, env);
  }
}
