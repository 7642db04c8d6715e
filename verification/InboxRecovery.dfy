/** The message table and the boot sweep as written, shown to be runs of the state machine. */
module InboxRecovery {
  import opened Common
  import opened InboxMachine
  import opened InboxTheorems

  class MessageRepository {
    var messages: seq<Message>

    constructor ()
      ensures messages == []
    {
      messages := [];
    }

    /** Refused without an id, and for an id already in the table: the unique index rejects the insert. */
    method TryRecordInbound(waId: string, kind: Kind, now: int) returns (id: Option<nat>)
      modifies this
      ensures id.None? <==> waId == "" || Known(old(messages), waId)
      ensures id.None? ==> messages == old(messages)
      ensures id.Some? ==>
        id.value == |old(messages)| && messages == old(messages) + [Message(waId, kind, Stamp(now), Pending)]
    {
      if waId == "" || Known(messages, waId) {
        return None;
      }
      id := Some(|messages|);
      messages := messages + [Message(waId, kind, Stamp(now), Pending)];
    }

    method MarkProcessed(id: nat)
      requires id < |messages|
      modifies this
      ensures messages == old(messages)[id := old(messages)[id].(status := Processed)]
    {
      messages := messages[id := messages[id].(status := Processed)];
    }

    method MarkFailed(id: nat)
      requires id < |messages|
      modifies this
      ensures messages == old(messages)[id := old(messages)[id].(status := Failed)]
    {
      messages := messages[id := messages[id].(status := Failed)];
    }
  }

  class PendingRecovery {
    const repository: MessageRepository
    var clock: int
    ghost var sys: Sys

    ghost predicate Valid()
      reads this, repository
    {
      Kept(sys) && sys.messages == repository.messages && sys.now == clock
    }

    /** A process start on the table an earlier process left behind. */
    constructor (repository: MessageRepository, clock: int, ghost before: Sys)
      requires Kept(before) && before.messages == repository.messages && before.now == clock
      ensures Valid() && this.repository == repository && sys == Next(before, Crash) && sys.phase.Down?
    {
      this.repository, this.clock, sys := repository, clock, Next(before, Crash);
      new;
      hide Kept;
      StepKept(before, Crash);
    }

    ghost method Record(e: Event)
      requires Kept(sys)
      modifies `sys
      ensures sys == Next(old(sys), e) && Kept(sys)
    {
      hide Kept, Next;
      StepKept(sys, e);
      sys := Next(sys, e);
    }

    /** Before webhooks are accepted nothing else runs: only time passes while a handler is awaited. */
    method Await() returns (ghost event: Event)
      requires Valid()
      modifies `clock, `sys
      ensures Valid() && event.Elapse? && sys == Next(old(sys), event)
    {
      var ms: nat := *;
      clock := clock + ms;
      event := Elapse(ms);
      Record(event);
    }

    /** The pending messages, by the second they were recorded in. */
    method FindPendingInbound() returns (order: seq<nat>)
      requires Valid()
      ensures IsQueue(repository.messages, order)
    {
      hide IsQueue, RunsKept, PhaseKept, TableKept;
      order := [];
      assert IsQueue(repository.messages[..0], []) by { NothingQueued(repository.messages[..0]); }
      for i := 0 to |repository.messages|
        invariant IsQueue(repository.messages[..i], order)
      {
        QueueGrows(repository.messages, sys.now, i, order);
        if repository.messages[i].status == Pending {
          order := order + [i];
        } else {
          assert order + [] == order;
        }
      }
      assert repository.messages[..|repository.messages|] == repository.messages;
    }

    /**
     * The sweep at boot. What was pending stays pending exactly when it was too
     * young or beyond the boot's quota; everything else is settled, in order.
     */
    method RecoverPendingMessages(thresholdMs: int, maxPerBoot: nat)
      returns (ghost order: seq<nat>, ghost n: nat, ghost events: seq<Event>)
      requires Valid() && sys.phase.Down?
      modifies this, repository
      ensures IsQueue(old(repository.messages), order)
      ensures Valid() && sys == Run(old(sys), events) && Crash !in events && sys.phase == Listening({})
      ensures SameSettings(events, thresholdMs, maxPerBoot)
      ensures |repository.messages| == |old(repository.messages)|
      ensures TakesOldest(old(repository.messages), old(clock) - thresholdMs, maxPerBoot, order, n)
      ensures forall id: nat :: id < |repository.messages| ==>
        (repository.messages[id].status == Pending <==>
           old(repository.messages)[id].status == Pending && id !in order[..n])
    {
      hide Kept, Run, Next, Eligible, IsQueue, TakesOldest;
      var pending := FindPendingInbound();
      order := pending;
      var eligible := Eligible(repository.messages, clock, thresholdMs, maxPerBoot, pending);
      n := SweepTakesOldest(repository.messages, clock, thresholdMs, maxPerBoot, order);
      events := [Boot(thresholdMs, maxPerBoot, order)];
      RunOne(sys, Boot(thresholdMs, maxPerBoot, order));
      BootPhase(sys, thresholdMs, maxPerBoot, order);
      Record(Boot(thresholdMs, maxPerBoot, order));
      for i := 0 to |eligible|
        invariant Valid() && sys == Run(old(sys), events) && Crash !in events
        invariant SameSettings(events, thresholdMs, maxPerBoot)
        invariant sys.phase == Recovering(eligible[i..], None)
        invariant |repository.messages| == |old(repository.messages)|
        invariant forall id: nat :: id < |repository.messages| ==>
          (repository.messages[id].status == Pending <==>
             old(repository.messages)[id].status == Pending && id !in eligible[..i])
      {
        assert eligible[..i + 1] == eligible[..i] + [eligible[i]];
        ghost var more, _ := RecoverOne(eligible[i]);
        RunConcat(old(sys), events, more);
        events := events + more;
      }
      assert eligible[..|eligible|] == eligible;
      RunExtends(old(sys), events, BootDone);
      events := events + [BootDone];
      DonePhase(sys);
      Record(BootDone);
    }

    /** One message of the sweep, by what it carries. */
    method RecoverOne(id: nat) returns (ghost events: seq<Event>, ghost ended: Option<Ending>)
      requires Valid() && sys.phase.Recovering? && sys.phase.current.None?
      requires sys.phase.todo != [] && sys.phase.todo[0] == id
      modifies `clock, `sys, repository
      ensures Valid() && sys == Run(old(sys), events)
      ensures forall e <- events :: !e.Boot? && !e.Crash?
      ensures sys.phase == Recovering(old(sys).phase.todo[1..], None)
      ensures |repository.messages| == |old(repository.messages)|
      ensures id < |repository.messages| && repository.messages[id].status != Pending
      ensures EndsAs(repository.messages[id].kind, ended, repository.messages[id].status)
      ensures repository.messages[id] == old(repository.messages)[id].(status := repository.messages[id].status)
      ensures ended.Some? ==> RecoveryEnd(ended.value) in events
      ensures forall j :: 0 <= j < |repository.messages| && j != id ==>
        repository.messages[j] == old(repository.messages)[j]
    {
      hide Kept, Run, Next;
      HeadInTable(sys);
      TakeLeaves(sys);
      var message := repository.messages[id];
      if !message.kind.Text? && !(message.kind.Audio? && message.kind.recoverable) {
        repository.MarkProcessed(id);
        events, ended := [Take], None;
        RunOne(sys, Take);
        Record(Take);
        return;
      }
      RunOne(sys, Take);
      Record(Take);
      ghost var started := sys;
      ghost var waited := Await();   // the handler
      OnlyTimePasses(started, waited);
      var ending: Ending := *;
      match ending {
        case Returned => repository.MarkProcessed(id);
        case MediaGone => if message.kind.Audio? { repository.MarkProcessed(id); } else { repository.MarkFailed(id); }
        case Threw => repository.MarkFailed(id);
      }
      ended := Some(ending);
      events := [Take] + [waited] + [RecoveryEnd(ending)];
      RunExtends(old(sys), [Take], waited);
      RunExtends(old(sys), [Take] + [waited], RecoveryEnd(ending));
      RecoveryEndLeaves(sys, ending);
      Record(RecoveryEnd(ending));
    }
  }

  lemma HeadInTable(s: Sys)
    requires Kept(s) && s.phase.Recovering? && s.phase.todo != []
    ensures s.phase.todo[0] < |s.messages| == |s.starts|
  {
    assert s.phase.todo[0] in s.phase.todo;
  }

  lemma TakeLeaves(s: Sys)
    requires s.phase.Recovering? && s.phase.current.None? && s.phase.todo != []
    requires s.phase.todo[0] < |s.messages| == |s.starts|
    ensures var id, rest, n := s.phase.todo[0], s.phase.todo[1..], Next(s, Take);
      && n.now == s.now
      && if HasHandler(s.messages[id].kind) then n.messages == s.messages && n.phase == Recovering(rest, Some(id))
         else n.messages == s.messages[id := s.messages[id].(status := Processed)] && n.phase == Recovering(rest, None)
  {
  }

  lemma OnlyTimePasses(s: Sys, e: Event)
    requires e.Elapse?
    ensures Next(s, e).messages == s.messages && Next(s, e).phase == s.phase
  {
  }

  lemma RecoveryEndLeaves(s: Sys, ending: Ending)
    requires s.phase.Recovering? && s.phase.current.Some? && s.phase.current.value < |s.messages|
    ensures var id, n := s.phase.current.value, Next(s, RecoveryEnd(ending));
      && n.now == s.now && n.phase == Recovering(s.phase.todo, None)
      && n.messages == s.messages[id := s.messages[id].(status := RecoveredStatus(s.messages[id].kind, ending))]
  {
  }

  lemma BootPhase(s: Sys, thresholdMs: int, maxPerBoot: nat, order: seq<nat>)
    requires s.phase.Down? && IsQueue(s.messages, order)
    ensures var n := Next(s, Boot(thresholdMs, maxPerBoot, order));
      && n.messages == s.messages && n.now == s.now
      && n.phase == Recovering(Eligible(s.messages, s.now, thresholdMs, maxPerBoot, order), None)
  {
  }

  lemma NothingQueued(messages: seq<Message>)
    requires messages == []
    ensures IsQueue(messages, [])
  {
  }

  lemma RecordedInOrder(messages: seq<Message>, now: int, i: nat, j: nat)
    requires TableKept(messages, now) && i < j < |messages|
    ensures messages[i].createdAt <= messages[j].createdAt
  {
  }

  lemma QueueGrows(messages: seq<Message>, now: int, i: nat, order: seq<nat>)
    requires TableKept(messages, now) && i < |messages| && IsQueue(messages[..i], order)
    ensures IsQueue(messages[..i + 1], order + if messages[i].status == Pending then [i] else [])
  {
    var more := order + if messages[i].status == Pending then [i] else [];
    hide TableKept;
    var before, after := messages[..i], messages[..i + 1];
    forall a | 0 <= a < |more|
      ensures 0 <= more[a] < |after| && after[more[a]] == messages[more[a]] && after[more[a]].status == Pending
      ensures a < |order| ==> more[a] == order[a] < i && before[order[a]] == messages[order[a]]
    {
      if a < |order| {
        assert order[a] in order;
        assert before[order[a]] == after[order[a]];
      } else {
        assert more[a] == i && after[i] == messages[i];
      }
    }
    forall a, b | 0 <= a < b < |more|
      ensures more[a] != more[b] && after[more[a]].createdAt <= after[more[b]].createdAt
    {
      if b < |order| {
        assert before[order[a]].createdAt <= before[order[b]].createdAt;
      } else {
        assert more[b] == i;
        RecordedInOrder(messages, now, more[a], i);
      }
    }
    forall id | 0 <= id < |after| && after[id].status == Pending ensures id in more {
      if id < i {
        assert before[id] == after[id] && id in order;
      } else {
        assert more[|order|] == id;
      }
    }
  }

  lemma DonePhase(s: Sys)
    requires s.phase == Recovering([], None)
    ensures Next(s, BootDone) == s.(phase := Listening({}))
  {
  }

  lemma RunOne(s: Sys, e: Event)
    ensures Run(s, [e]) == Next(s, e)
  {
    hide Next;
    assert [e][..0] == [];
  }

  lemma RunExtends(s: Sys, events: seq<Event>, e: Event)
    ensures Run(s, events + [e]) == Next(Run(s, events), e)
  {
    hide Next;
    assert (events + [e])[..|events|] == events;
  }

  lemma {:induction false} RunConcat(s: Sys, a: seq<Event>, b: seq<Event>)
    ensures Run(s, a + b) == Run(Run(s, a), b)
  {
    hide Next;
    if b == [] {
      assert a + b == a;
    } else {
      assert (a + b)[..|a + b| - 1] == a + b[..|b| - 1];
      RunConcat(s, a, b[..|b| - 1]);
    }
  }
}
