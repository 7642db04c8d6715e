/** Capture of a message's items: one transaction a position, restartable after a crash. */
module Capture {
  import opened Common
  import opened ExpandChain
  import opened TaskTables
  import opened ChainInvariants
  import opened StoreChanges
  import opened ChainTheorems

  /** Positions of the message already recorded. */
  function CapturedIndexes(items: seq<Item>, message: nat): set<nat> {
    set i | 0 <= i < |items| && items[i].sourceMessageId == Some(message) && items[i].sourceItemIndex.Some?
      :: items[i].sourceItemIndex.value
  }

  /**
   * Positions `i` to `stop` of an attempt, each under the settings and clock of its
   * own moment; a refused insert ends it.
   */
  function CaptureFrom(
      db: Db, items: seq<TriageItem>, message: nat, envs: seq<Env>, already: set<nat>, i: nat, stop: nat): Db
    requires i <= stop <= |items| == |envs|
    decreases stop - i
  {
    if i == stop then db
    else if i in already then CaptureFrom(db, items, message, envs, already, i + 1, stop)
    else
      match CaptureOne(db, items[i], message, i, envs[i])
      case Failure(_) => db
      case Success(next) => CaptureFrom(next, items, message, envs, already, i + 1, stop)
  }

  /** An attempt that dies, or ends, once it has gone through `stop` positions. */
  function CaptureAttempt(db: Db, items: seq<TriageItem>, message: nat, envs: seq<Env>, stop: nat): Db
    requires stop <= |items| == |envs|
  {
    CaptureFrom(db, items, message, envs, CapturedIndexes(db.items, message), 0, stop)
  }

  predicate Recorded(items: seq<Item>, message: nat, index: nat) {
    SourceTaken(items, Some(message), Some(index))
  }

  lemma IndexesAreRecorded(items: seq<Item>, message: nat, index: nat)
    ensures index in CapturedIndexes(items, message) <==> Recorded(items, message, index)
  {
  }

  /** Rows already in the tables stay as they are; new ones are appended. */
  predicate Extends(db: Db, next: Db) {
    db.items <= next.items && db.events <= next.events && db.jobs <= next.jobs
  }

  lemma CaptureOneAdds(db: Db, item: TriageItem, message: nat, index: nat, env: Env)
    requires !Recorded(db.items, message, index)
    ensures var r := CaptureOne(db, item, message, index, env);
      r.Success? && Extends(db, r.value) && r.value.items == db.items + [CapturedItem(item, message, index)]
  {
    hide Expand;
  }

  lemma RecordedAfter(items: seq<Item>, item: TriageItem, message: nat, index: nat, k: nat)
    ensures Recorded(items + [CapturedItem(item, message, index)], message, k)
       <==> Recorded(items, message, k) || k == index
  {
    var next := items + [CapturedItem(item, message, index)];
    assert next[|items|].sourceItemIndex == Some(index);
    if Recorded(items, message, k) {
      var i :| 0 <= i < |items| && items[i].sourceMessageId == Some(message) && items[i].sourceItemIndex == Some(k);
      assert next[i] == items[i];
    }
  }

  /** No insert of an attempt is ever refused, and each position it goes through ends up recorded. */
  lemma {:induction false} AttemptRecords(
      db: Db, items: seq<TriageItem>, message: nat, envs: seq<Env>, already: set<nat>, i: nat, stop: nat)
    requires i <= stop <= |items| == |envs| && Sound(db)
    requires forall k :: 0 <= k < i ==> Recorded(db.items, message, k)
    requires forall k :: i <= k < |items| ==> (k in already <==> Recorded(db.items, message, k))
    ensures var next := CaptureFrom(db, items, message, envs, already, i, stop);
      && Sound(next) && (StoreInv(db) ==> StoreInv(next)) && Extends(db, next)
      && forall k :: 0 <= k < stop ==> Recorded(next.items, message, k)
    decreases stop - i
  {
    hide StoreInv, Sound, Recorded, CaptureOne;
    if i < stop {
      if i in already {
        AttemptRecords(db, items, message, envs, already, i + 1, stop);
      } else {
        CaptureOneAdds(db, items[i], message, i, envs[i]);
        CaptureSound(db, items[i], message, i, envs[i]);
        if StoreInv(db) { CaptureKeeps(db, items[i], message, i, envs[i]); }
        var next := CaptureOne(db, items[i], message, i, envs[i]).value;
        forall k: nat ensures Recorded(next.items, message, k) <==> Recorded(db.items, message, k) || k == i {
          RecordedAfter(db.items, items[i], message, i, k);
        }
        AttemptRecords(next, items, message, envs, already, i + 1, stop);
      }
    }
  }

  lemma AttemptKeeps(db: Db, items: seq<TriageItem>, message: nat, envs: seq<Env>, stop: nat)
    requires Sound(db) && stop <= |items| == |envs|
    ensures var next := CaptureAttempt(db, items, message, envs, stop);
      && Sound(next) && (StoreInv(db) ==> StoreInv(next)) && Extends(db, next)
      && forall k :: 0 <= k < stop ==> Recorded(next.items, message, k)
  {
    hide StoreInv, Sound, CaptureFrom, Recorded, CapturedIndexes;
    forall k: nat ensures k in CapturedIndexes(db.items, message) <==> Recorded(db.items, message, k) {
      IndexesAreRecorded(db.items, message, k);
    }
    AttemptRecords(db, items, message, envs, CapturedIndexes(db.items, message), 0, stop);
  }

  // ---- Crashes and restarts ----------------------------------------------

  /** Between attempts anything else may happen to the store, crashes inside commands included. */
  datatype Step = Attempt(items: seq<TriageItem>, envs: seq<Env>, stop: nat) | Other(change: Change)

  predicate WellFormed(steps: seq<Step>) {
    forall s <- steps :: s.Attempt? ==> s.stop <= |s.items| == |s.envs|
  }

  function RunSteps(db: Db, message: nat, steps: seq<Step>): Db
    requires WellFormed(steps)
  {
    if steps == [] then db
    else
      var before := RunSteps(db, message, steps[..|steps| - 1]);
      match steps[|steps| - 1]
      case Attempt(items, envs, stop) => CaptureAttempt(before, items, message, envs, stop)
      case Other(change) => Changed(before, change)
  }

  lemma {:induction false} StepsSound(db: Db, message: nat, steps: seq<Step>)
    requires Sound(db) && WellFormed(steps)
    ensures Sound(RunSteps(db, message, steps))
    ensures StoreInv(db) && (forall s <- steps :: s.Attempt?) ==> StoreInv(RunSteps(db, message, steps))
  {
    hide StoreInv, Sound, CaptureAttempt, Changed;
    if steps != [] {
      var before := RunSteps(db, message, steps[..|steps| - 1]);
      StepsSound(db, message, steps[..|steps| - 1]);
      match steps[|steps| - 1]
      case Attempt(items, envs, stop) => AttemptKeeps(before, items, message, envs, stop);
      case Other(change) => ChangeSound(before, change);
    }
  }

  function CopiesOf(items: seq<Item>, message: nat, index: nat): set<nat> {
    set i | 0 <= i < |items| && items[i].sourceMessageId == Some(message) && items[i].sourceItemIndex == Some(index)
  }

  /**
   * Exactly once: after any number of attempts stopped at arbitrary points and
   * any other commands, crashes inside them or scheduler work in between, one
   * complete attempt leaves exactly one item for each position.
   */
  lemma ExactlyOnce(db: Db, message: nat, steps: seq<Step>, items: seq<TriageItem>, envs: seq<Env>, index: nat)
    requires Sound(db) && WellFormed(steps) && index < |items| == |envs|
    ensures var next := CaptureAttempt(RunSteps(db, message, steps), items, message, envs, |items|);
      |CopiesOf(next.items, message, index)| == 1
  {
    hide StoreInv, Sound, CaptureAttempt, RunSteps;
    var before := RunSteps(db, message, steps);
    StepsSound(db, message, steps);
    AttemptKeeps(before, items, message, envs, |items|);
    OneCopy(CaptureAttempt(before, items, message, envs, |items|), message, index);
  }

  lemma OneCopy(db: Db, message: nat, index: nat)
    requires Sound(db) && Recorded(db.items, message, index)
    ensures |CopiesOf(db.items, message, index)| == 1
  {
    hide OneActive, GcalUnique;
    var i :|
      0 <= i < |db.items| && db.items[i].sourceMessageId == Some(message) && db.items[i].sourceItemIndex == Some(index);
    assert CopiesOf(db.items, message, index) == {i};
  }

  // ---- Nothing half-captured ---------------------------------------------

  predicate HasChain(db: Db, id: nat, event: nat, env: Env)
    requires id < |db.items|
  {
    && IsActive(db.events, event) && db.events[event].itemId == id && db.events[event].cadeiaGerada
    && db.items[id].dueAt == Some(db.events[event].startAt)
    && PendingChain(db.jobs, event) == ChainOf(db.events[event], env)
  }

  /** A dated appointment has its event with the whole chain; any other dated item has its one reminder. */
  ghost predicate Whole(db: Db, id: nat, env: Env)
    requires id < |db.items|
  {
    var item := db.items[id];
    item.dueAt.Some? ==>
      if item.kind == Compromisso then exists event: nat :: HasChain(db, id, event, env)
      else Job(REMINDER, PointReminder(id, item.title), item.dueAt.value, None, JobPending, 0, None) in db.jobs
  }

  lemma CaptureOneWhole(db: Db, item: TriageItem, message: nat, index: nat, env: Env)
    requires StoreInv(db) && !Recorded(db.items, message, index)
    ensures Whole(CaptureOne(db, item, message, index, env).value, |db.items|, env)
  {
    hide StoreInv, Expand, PendingChain;
    var next := CaptureOne(db, item, message, index, env).value;
    var id := |db.events|;
    if item.due.Resolved? {
      if item.kind == Compromisso {
        var e := Event(|db.items|, None, item.title, item.due.at, None, None, env.deslocamentoMinDefault, false, Ativo);
        PendingChainConcat(db.jobs, ChainJobs(id, e, ChainOf(e, env)), id);
        OwnChain(id, e, ChainOf(e, env));
        NoJobsBeyond(db, id);
        assert next.jobs == db.jobs + ChainJobs(id, e, ChainOf(e, env));
        assert HasChain(next, |db.items|, id, env);
      } else {
        assert next.jobs[|db.jobs|] in next.jobs;
      }
    }
  }

  /** A later capture leaves a whole item whole. */
  lemma StaysWhole(db: Db, item: TriageItem, message: nat, index: nat, env: Env, id: nat, was: Env)
    requires StoreInv(db) && !Recorded(db.items, message, index) && id < |db.items| && Whole(db, id, was)
    ensures Whole(CaptureOne(db, item, message, index, env).value, id, was)
  {
    hide StoreInv, Expand, PendingChain;
    CaptureOneAdds(db, item, message, index, env);
    var next := CaptureOne(db, item, message, index, env).value;
    if db.items[id].dueAt.Some? && db.items[id].kind == Compromisso {
      var event: nat :| HasChain(db, id, event, was);
      var added := next.jobs[|db.jobs|..];
      assert next.jobs == db.jobs + added;
      forall i | 0 <= i < |added| ensures !PendingReminderOf(added[i], event) {
        assert added[i] == next.jobs[|db.jobs| + i];
      }
      PendingChainConcat(db.jobs, added, event);
      NoPendingChain(added, event);
      assert HasChain(next, id, event, was);
    }
  }

  /** Every item of the message is whole, each under the settings of one of the attempts. */
  ghost predicate AllWhole(db: Db, message: nat, envs: set<Env>) {
    forall id: nat :: id < |db.items| && db.items[id].sourceMessageId == Some(message)
      ==> exists env :: env in envs && Whole(db, id, env)
  }

  lemma CaptureOneAllWhole(db: Db, item: TriageItem, message: nat, index: nat, env: Env, envs: set<Env>)
    requires StoreInv(db) && !Recorded(db.items, message, index) && AllWhole(db, message, envs) && env in envs
    ensures AllWhole(CaptureOne(db, item, message, index, env).value, message, envs)
  {
    hide StoreInv, Whole, CaptureOne, Recorded;
    CaptureOneAdds(db, item, message, index, env);
    CaptureOneWhole(db, item, message, index, env);
    var next := CaptureOne(db, item, message, index, env).value;
    forall id: nat | id < |next.items| && next.items[id].sourceMessageId == Some(message)
      ensures exists w :: w in envs && Whole(next, id, w)
    {
      if id < |db.items| {
        assert db.items[id] == next.items[id];
        var w :| w in envs && Whole(db, id, w);
        StaysWhole(db, item, message, index, env, id, w);
      }
    }
  }

  lemma {:induction false} AttemptAllWhole(
      db: Db, items: seq<TriageItem>, message: nat, envs: seq<Env>, already: set<nat>, i: nat, stop: nat, all: set<Env>)
    requires i <= stop <= |items| == |envs| && StoreInv(db) && AllWhole(db, message, all)
    requires forall env <- envs :: env in all
    requires forall k :: i <= k < |items| ==> (k in already <==> Recorded(db.items, message, k))
    ensures AllWhole(CaptureFrom(db, items, message, envs, already, i, stop), message, all)
    decreases stop - i
  {
    hide StoreInv, Recorded, CaptureOne, AllWhole;
    if i < stop {
      if i in already {
        AttemptAllWhole(db, items, message, envs, already, i + 1, stop, all);
      } else {
        CaptureOneAdds(db, items[i], message, i, envs[i]);
        CaptureKeeps(db, items[i], message, i, envs[i]);
        CaptureOneAllWhole(db, items[i], message, i, envs[i], all);
        var next := CaptureOne(db, items[i], message, i, envs[i]).value;
        forall k: nat ensures Recorded(next.items, message, k) <==> Recorded(db.items, message, k) || k == i {
          RecordedAfter(db.items, items[i], message, i, k);
        }
        AttemptAllWhole(next, items, message, envs, already, i + 1, stop, all);
      }
    }
  }

  function EnvsOf(steps: seq<Step>): set<Env> {
    set s, env | s in steps && s.Attempt? && env in s.envs :: env
  }

  /**
   * At every crash point of any series of attempts, each dated item recorded
   * for the message already has its event and whole chain, or its one reminder.
   */
  lemma {:induction false} NothingHalfCaptured(db: Db, message: nat, attempts: seq<Step>)
    requires StoreInv(db) && WellFormed(attempts) && forall s <- attempts :: s.Attempt?
    requires forall i :: 0 <= i < |db.items| ==> db.items[i].sourceMessageId != Some(message)
    ensures AllWhole(RunSteps(db, message, attempts), message, EnvsOf(attempts))
  {
    hide StoreInv, Sound, CaptureFrom, Whole, Recorded, CapturedIndexes;
    if attempts != [] {
      var last, before := attempts[|attempts| - 1], attempts[..|attempts| - 1];
      NothingHalfCaptured(db, message, before);
      ConsistentIsSound(db);
      StepsSound(db, message, before);
      var s := RunSteps(db, message, before);
      MoreEnvs(s, message, EnvsOf(before), EnvsOf(attempts));
      forall k: nat ensures k in CapturedIndexes(s.items, message) <==> Recorded(s.items, message, k) {
        IndexesAreRecorded(s.items, message, k);
      }
      AttemptAllWhole(s, last.items, message, last.envs, CapturedIndexes(s.items, message), 0, last.stop,
                      EnvsOf(attempts));
    }
  }

  lemma MoreEnvs(db: Db, message: nat, few: set<Env>, many: set<Env>)
    requires AllWhole(db, message, few) && few <= many
    ensures AllWhole(db, message, many)
  {
    hide Whole;
  }
}
