/** The promises about inbound messages, over every run of webhooks, handlers, crashes and boots. */
module InboxTheorems {
  import opened Common
  import opened InboxMachine

  predicate Distinct(ids: seq<nat>) {
    forall i, j :: 0 <= i < j < |ids| ==> ids[i] != ids[j]
  }

  /** No two rows carry the same WhatsApp id, and rows are in the order they were recorded. */
  predicate TableKept(messages: seq<Message>, now: int) {
    && (forall i, j :: 0 <= i < j < |messages| ==> messages[i].waId != messages[j].waId)
    && (forall i, j :: 0 <= i < j < |messages| ==> messages[i].createdAt <= messages[j].createdAt)
    && (forall i :: 0 <= i < |messages| ==> messages[i].createdAt <= Stamp(now))
  }

  /** A message being handled is pending; every run but the last was cut short by a crash. */
  predicate RunsKept(s: Sys) {
    && |s.starts| == |s.messages| == |s.interrupted|
    && forall i :: 0 <= i < |s.messages| ==>
         if Handling(s.phase, i) then s.messages[i].status == Pending && s.starts[i] == s.interrupted[i] + 1
         else if s.messages[i].status == Pending then s.starts[i] == s.interrupted[i]
         else s.interrupted[i] <= s.starts[i] <= s.interrupted[i] + 1
  }

  predicate PhaseKept(s: Sys) {
    match s.phase
    case Down => true
    case Recovering(todo, current) =>
      && Distinct(todo) && (forall id <- todo :: id < |s.messages| && s.messages[id].status == Pending)
      && (current.Some? ==> current.value < |s.messages| && current.value !in todo)
    case Listening(live) => forall id <- live :: id < |s.messages|
  }

  predicate Kept(s: Sys) {
    TableKept(s.messages, s.now) && RunsKept(s) && PhaseKept(s)
  }

  predicate InTimeOrder(messages: seq<Message>, ids: seq<nat>) {
    forall i, j :: 0 <= i < j < |ids| && ids[i] < |messages| && ids[j] < |messages|
      ==> messages[ids[i]].createdAt <= messages[ids[j]].createdAt
  }

  lemma {:induction false} RecordedContents(messages: seq<Message>, limit: int, order: seq<nat>)
    requires Distinct(order)
    ensures forall id: nat :: id in RecordedBy(messages, limit, order) <==>
      id in order && id < |messages| && messages[id].createdAt <= limit
    ensures Distinct(RecordedBy(messages, limit, order))
  {
    if order != [] {
      var n := |order| - 1;
      RecordedContents(messages, limit, order[..n]);
      assert order == order[..n] + [order[n]];
      assert order[n] !in order[..n];
    }
  }

  lemma {:induction false} RecordedOrder(messages: seq<Message>, limit: int, order: seq<nat>)
    requires Distinct(order) && InTimeOrder(messages, order)
    ensures InTimeOrder(messages, RecordedBy(messages, limit, order))
  {
    if order != [] {
      var n := |order| - 1;
      RecordedOrder(messages, limit, order[..n]);
      RecordedContents(messages, limit, order[..n]);
      if order[n] < |messages| && messages[order[n]].createdAt <= limit {
        LastIsLatest(messages, RecordedBy(messages, limit, order[..n]), order);
      }
    }
  }

  /** Adding the last of a list in time order to some that come before it keeps the order. */
  lemma LastIsLatest(messages: seq<Message>, some: seq<nat>, order: seq<nat>)
    requires order != [] && InTimeOrder(messages, order) && InTimeOrder(messages, some)
    requires forall id <- some :: id in order[..|order| - 1]
    ensures InTimeOrder(messages, some + [order[|order| - 1]])
  {
    var n := |order| - 1;
    forall i | 0 <= i < |some| && some[i] < |messages| && order[n] < |messages|
      ensures messages[some[i]].createdAt <= messages[order[n]].createdAt
    {
      assert some[i] in some;
      var k :| 0 <= k < n && order[k] == some[i];
    }
  }

  lemma MarkKeepsTable(s: Sys, id: nat, status: Status)
    requires TableKept(s.messages, s.now) && id < |s.messages|
    ensures TableKept(Mark(s, id, status).messages, s.now)
  {
  }

  lemma TakeKept(s: Sys)
    requires Kept(s) && s.phase.Recovering? && s.phase.todo != [] && s.phase.current.None?
    ensures Kept(TakeNext(s))
  {
    hide TableKept;
    var todo := s.phase.todo;
    assert todo[0] in todo;
    MarkKeepsTable(s, todo[0], Processed);
    forall id <- todo[1..] ensures id in todo && id != todo[0] {
      var k :| 0 <= k < |todo| - 1 && todo[1..][k] == id;
      assert todo[k + 1] == id;
    }
  }

  lemma BootKept(s: Sys, thresholdMs: int, maxPerBoot: nat, order: seq<nat>)
    requires Kept(s) && s.phase.Down? && IsQueue(s.messages, order)
    ensures Kept(Next(s, Boot(thresholdMs, maxPerBoot, order)))
  {
    hide TableKept, RecordedBy;
    RecordedContents(s.messages, s.now - thresholdMs, order);
    var candidates := RecordedBy(s.messages, s.now - thresholdMs, order);
    forall id <- Eligible(s.messages, s.now, thresholdMs, maxPerBoot, order) ensures id in candidates {
    }
  }

  lemma LargerTableKept(messages: seq<Message>, m: Message, now: int)
    requires TableKept(messages, now) && !Known(messages, m.waId) && m.createdAt == Stamp(now)
    ensures TableKept(messages + [m], now)
  {
  }

  lemma ReceiveKept(s: Sys, waId: string, kind: Kind)
    requires Kept(s) && s.phase.Listening? && !Known(s.messages, waId)
    ensures Kept(Receive(s, waId, kind))
  {
    hide TableKept;
    LargerTableKept(s.messages, Message(waId, kind, Stamp(s.now), if kind.Other? then Processed else Pending), s.now);
  }

  lemma RecordOnlyKept(s: Sys, waId: string, kind: Kind)
    requires Kept(s) && s.phase.Listening? && !Known(s.messages, waId)
    ensures Kept(Crashed(Record(s, waId, kind, Pending, 0)))
  {
    hide TableKept, Crashed;
    LargerTableKept(s.messages, Message(waId, kind, Stamp(s.now), Pending), s.now);
    CrashKept(Record(s, waId, kind, Pending, 0));
  }

  lemma CrashKept(s: Sys)
    requires Kept(s)
    ensures Kept(Crashed(s))
  {
    hide TableKept;
  }

  lemma LaterTableKept(messages: seq<Message>, now: int, later: int)
    requires TableKept(messages, now) && now <= later
    ensures TableKept(messages, later)
  {
    LaterStamp(now, later - now);
  }

  lemma StepKept(s: Sys, e: Event)
    requires Kept(s)
    ensures Kept(Next(s, e))
  {
    hide Eligible, TakeNext, Receive, Crashed, Known, TableKept;
    match e
    case Elapse(ms) => assert TableKept(s.messages, s.now + ms) by { LaterTableKept(s.messages, s.now, s.now + ms); }
    case LiveEnd(id, ending) =>
      if id < |s.messages| { MarkKeepsTable(s, id, if ending.Returned? then Processed else Failed); }
    case RecoveryEnd(ending) =>
      if s.phase.Recovering? && s.phase.current.Some? {
        var id := s.phase.current.value;
        MarkKeepsTable(s, id, RecoveredStatus(s.messages[id].kind, ending));
      }
    case Webhook(waId, kind) => if s.phase.Listening? && !Known(s.messages, waId) { ReceiveKept(s, waId, kind); }
    case RecordOnly(waId, kind) => if s.phase.Listening? && !Known(s.messages, waId) { RecordOnlyKept(s, waId, kind); }
    case Boot(thresholdMs, maxPerBoot, order) =>
      if s.phase.Down? && IsQueue(s.messages, order) { BootKept(s, thresholdMs, maxPerBoot, order); }
    case Take => if s.phase.Recovering? && s.phase.todo != [] && s.phase.current.None? { TakeKept(s); }
    case Crash => CrashKept(s);
    case _ =>
  }

  lemma {:induction false} RunKept(s: Sys, events: seq<Event>)
    requires Kept(s)
    ensures Kept(Run(s, events))
  {
    hide Kept, Next;
    if events != [] {
      RunKept(s, events[..|events| - 1]);
      StepKept(Run(s, events[..|events| - 1]), events[|events| - 1]);
    }
  }

  /**
   * However often a message is delivered again and whatever crashes happen, it
   * has one row, is handled at most once more than crashes cut its handling
   * short, and no run is started of a message that is being handled or settled.
   */
  lemma HandledOnce(now: int, events: seq<Event>, e: Event, i: nat)
    requires i < |Run(Init(now), events).messages|
    ensures var s := Run(Init(now), events);
      var n := Next(s, e);
      && (forall j :: 0 <= j < |s.messages| && j != i ==> s.messages[j].waId != s.messages[i].waId)
      && |s.starts| == |s.interrupted| == |s.messages| && s.starts[i] <= s.interrupted[i] + 1
      && (i < |n.starts| ==> n.starts[i] != s.starts[i] ==> !Handling(s.phase, i) && s.messages[i].status == Pending)
  {
    hide Run, Eligible, Known;
    RunKept(Init(now), events);
    var s := Run(Init(now), events);
    if e.Take? && s.phase.Recovering? && s.phase.todo != [] {
      assert s.phase.todo[0] in s.phase.todo;
    }
  }

  lemma StepSettled(s: Sys, e: Event, i: nat)
    requires Kept(s) && i < |s.messages| && s.messages[i].status != Pending
    ensures var n := Next(s, e);
      i < |n.messages| && i < |n.starts| && n.messages[i] == s.messages[i] && n.starts[i] == s.starts[i]
  {
    hide Eligible, Known, TableKept;
    if e.Take? && s.phase.Recovering? && s.phase.todo != [] {
      assert s.phase.todo[0] in s.phase.todo;
    }
  }

  /** A processed or failed message is never touched or handled again. */
  lemma {:induction false} SettledForever(s: Sys, events: seq<Event>, i: nat)
    requires Kept(s) && i < |s.messages| && s.messages[i].status != Pending
    ensures var n := Run(s, events);
      i < |n.messages| && i < |n.starts| && n.messages[i] == s.messages[i] && n.starts[i] == s.starts[i]
  {
    hide Next, TableKept, PhaseKept;
    if events != [] {
      var before := events[..|events| - 1];
      SettledForever(s, before, i);
      RunKept(s, before);
      StepSettled(Run(s, before), events[|events| - 1], i);
    }
  }

  // ---- The backlog drains -------------------------------------------------

  /** Messages recorded by `limit` that are still pending. */
  function Backlog(messages: seq<Message>, limit: int): set<nat> {
    set id | 0 <= id < |messages| && messages[id].status == Pending && messages[id].createdAt <= limit
  }

  /** Those the sweep under way will not settle. */
  function LeftOut(s: Sys, limit: int): set<nat> {
    if s.phase.Recovering? then
      set id | id in Backlog(s.messages, limit) && id !in s.phase.todo && s.phase.current != Some(id)
    else Backlog(s.messages, limit)
  }

  lemma FewerRemain(a: set<nat>, b: set<nat>)
    requires a <= b
    ensures |a| <= |b|
  {
    assert b == a + (b - a);
  }

  function IdsOf(ids: seq<nat>): set<nat> {
    set id | id in ids
  }

  lemma {:induction false} DistinctCount(ids: seq<nat>)
    requires Distinct(ids)
    ensures |IdsOf(ids)| == |ids|
  {
    if ids != [] {
      var n := |ids| - 1;
      DistinctCount(ids[..n]);
      assert IdsOf(ids) == IdsOf(ids[..n]) + {ids[n]} by {
        assert ids == ids[..n] + [ids[n]];
      }
      assert ids[n] !in ids[..n];
    }
  }

  /** The first `n` of the listing, as many as the quota allows, are old enough, and the next one is not. */
  predicate TakesOldest(messages: seq<Message>, limit: int, max: nat, order: seq<nat>, n: nat) {
    && n <= |order| && n <= max
    && (forall k :: 0 <= k < n ==> order[k] < |messages| && messages[order[k]].createdAt <= limit)
    && (n < |order| && n < max ==> order[n] < |messages| && messages[order[n]].createdAt > limit)
  }

  lemma {:induction false} OldestArePrefix(messages: seq<Message>, limit: int, order: seq<nat>) returns (n: nat)
    requires InTimeOrder(messages, order) && forall k :: 0 <= k < |order| ==> order[k] < |messages|
    ensures n <= |order| && RecordedBy(messages, limit, order) == order[..n]
    ensures forall k :: 0 <= k < n ==> order[k] < |messages| && messages[order[k]].createdAt <= limit
    ensures n < |order| ==> order[n] < |messages| && messages[order[n]].createdAt > limit
  {
    if order == [] {
      n := 0;
    } else {
      hide RecordedBy, InTimeOrder;
      var last, before := |order| - 1, order[..|order| - 1];
      ShorterInOrder(messages, order);
      n := OldestArePrefix(messages, limit, before);
      RecordedStep(messages, limit, order);
      if n < last {
        assert before[n] == order[n];
        assert before[..n] + [] == order[..n];
      } else if messages[order[last]].createdAt <= limit {
        n := |order|;
        assert before + [order[last]] == order == order[..n];
      } else {
        assert before[..n] + [] == order[..n];
      }
    }
  }

  lemma ShorterInOrder(messages: seq<Message>, order: seq<nat>)
    requires InTimeOrder(messages, order) && order != []
    ensures InTimeOrder(messages, order[..|order| - 1])
    ensures forall k :: 0 <= k < |order| - 1 && order[k] < |messages| && order[|order| - 1] < |messages| ==>
      messages[order[k]].createdAt <= messages[order[|order| - 1]].createdAt
  {
  }

  lemma RecordedStep(messages: seq<Message>, limit: int, order: seq<nat>)
    requires order != [] && order[|order| - 1] < |messages|
    ensures var last := order[|order| - 1];
      RecordedBy(messages, limit, order)
      == RecordedBy(messages, limit, order[..|order| - 1]) + if messages[last].createdAt <= limit then [last] else []
  {
  }

  /**
   * A sweep takes exactly the oldest pending messages that are at least the
   * threshold old, up to its quota.
   */
  lemma SweepTakesOldest(messages: seq<Message>, now: int, thresholdMs: int, max: nat, order: seq<nat>)
    returns (n: nat)
    requires IsQueue(messages, order)
    ensures TakesOldest(messages, now - thresholdMs, max, order, n)
    ensures Eligible(messages, now, thresholdMs, max, order) == order[..n]
  {
    hide RecordedBy;
    assert InTimeOrder(messages, order) && forall k :: 0 <= k < |order| ==> order[k] in order;
    var m := OldestArePrefix(messages, now - thresholdMs, order);
    n := if m <= max then m else max;
    assert order[..m][..n] == order[..n];
  }

  // ---- What each event leaves ---------------------------------------------

  /**
   * A webhook records a message exactly when the process listens and its id is there
   * and new: stamped with the second, processed at once if it has no handler, and
   * else pending with its handler started. Dying right after the insert leaves the
   * row pending and nothing started.
   */
  lemma WebhookLeaves(s: Sys, waId: string, kind: Kind)
    requires Kept(s)
    ensures var n := Next(s, Webhook(waId, kind));
      var isNew := s.phase.Listening? && waId != "" && forall i :: 0 <= i < |s.messages| ==> s.messages[i].waId != waId;
      if !isNew then n == s
      else && n.messages
              == s.messages + [Message(waId, kind, s.now - s.now % 1000, if kind.Other? then Processed else Pending)]
           && |n.starts| == |n.messages| && n.starts[|s.messages|] == (if kind.Other? then 0 else 1)
           && n.phase == Listening(if kind.Other? then s.phase.live else s.phase.live + {|s.messages|})
    ensures var n := Next(s, RecordOnly(waId, kind));
      var isNew := s.phase.Listening? && waId != "" && forall i :: 0 <= i < |s.messages| ==> s.messages[i].waId != waId;
      if !isNew then n == s
      else && n.messages == s.messages + [Message(waId, kind, s.now - s.now % 1000, Pending)]
           && |n.starts| == |n.messages| && n.starts[|s.messages|] == 0 && n.phase.Down?
  {
  }

  /** How a message ends: by its handler's ending, or at once in a sweep when no handler can take it. */
  predicate EndsAs(kind: Kind, ending: Option<Ending>, status: Status) {
    match ending
    case None => status == Processed && (kind.Other? || kind == Audio(false))
    case Some(e) =>
      && (kind.Text? || kind == Audio(true))
      && status == if e == Returned || (e == MediaGone && kind.Audio?) then Processed else Failed
  }

  /** Handlers of the sweep and of the live process settle their message alone, by how they end. */
  lemma EndingLeaves(s: Sys, ending: Ending, id: nat)
    requires Kept(s) && Handling(s.phase, id) && id < |s.messages|
    ensures var e := if s.phase.Listening? then LiveEnd(id, ending) else RecoveryEnd(ending);
      var n := Next(s, e);
      && !Handling(n.phase, id) && n.starts == s.starts
      && n.messages == s.messages[id := s.messages[id].(status :=
           if ending == Returned || (s.phase.Recovering? && ending == MediaGone && s.messages[id].kind.Audio?)
           then Processed else Failed)]
  {
  }

  /** If a sweep leaves out an old message, it takes its whole quota from messages no younger. */
  lemma SweepIsFull(
      messages: seq<Message>, now: int, thresholdMs: int, max: nat, order: seq<nat>, limit: int, id: nat)
    requires IsQueue(messages, order) && limit <= now - thresholdMs
    requires id in Backlog(messages, limit) && id !in Eligible(messages, now, thresholdMs, max, order)
    ensures |Eligible(messages, now, thresholdMs, max, order)| == max
    ensures IdsOf(Eligible(messages, now, thresholdMs, max, order)) <= Backlog(messages, limit)
    ensures Distinct(Eligible(messages, now, thresholdMs, max, order))
  {
    hide RecordedBy;
    RecordedContents(messages, now - thresholdMs, order);
    RecordedOrder(messages, now - thresholdMs, order);
    var candidates := RecordedBy(messages, now - thresholdMs, order);
    var k :| 0 <= k < |candidates| && candidates[k] == id;
    forall x <- candidates[..max] ensures x in Backlog(messages, limit) {
      var i :| 0 <= i < max && candidates[i] == x;
      assert candidates[i] in candidates;
      assert messages[candidates[i]].createdAt <= messages[candidates[k]].createdAt;
    }
  }

  /** A sweep takes the oldest: whatever `limit`, it leaves out at most the backlog less its quota. */
  lemma SweepReaches(messages: seq<Message>, now: int, thresholdMs: int, max: nat, order: seq<nat>, limit: int)
    requires IsQueue(messages, order) && limit <= now - thresholdMs
    ensures var swept := IdsOf(Eligible(messages, now, thresholdMs, max, order));
      |Backlog(messages, limit) - swept| <= Minus(|Backlog(messages, limit)|, max)
  {
    hide Eligible, Backlog, IsQueue, Distinct, IdsOf;
    var ids, backlog := Eligible(messages, now, thresholdMs, max, order), Backlog(messages, limit);
    if backlog - IdsOf(ids) != {} {
      var id :| id in backlog - IdsOf(ids);
      assert id !in ids by { NotAmong(ids, id); }
      SweepIsFull(messages, now, thresholdMs, max, order, limit, id);
      DistinctCount(ids);
    }
  }

  lemma NotAmong(ids: seq<nat>, id: nat)
    requires id !in IdsOf(ids)
    ensures id !in ids
  {
  }

  /** Boots brought to completion in a run. */
  function Boots(s: Sys, events: seq<Event>): nat {
    if events == [] then 0
    else
      var before := events[..|events| - 1];
      Boots(s, before)
      + if events[|events| - 1] == BootDone && Run(s, before).phase == Recovering([], None) then 1 else 0
  }

  predicate SameSettings(events: seq<Event>, thresholdMs: int, max: nat) {
    forall e <- events :: e.Boot? ==> e.thresholdMs == thresholdMs && e.maxPerBoot == max
  }

  function Minus(a: nat, b: nat): nat {
    if a <= b then 0 else a - b
  }

  /**
   * The clock has passed `limit`; of the `n` messages of the backlog `done` are
   * settled, or all of them, and the sweep under way goes for `max` more.
   */
  predicate Drains(s: Sys, limit: int, thresholdMs: int, max: nat, n: nat, done: nat) {
    && limit < Stamp(s.now) && limit <= s.now - thresholdMs
    && |Backlog(s.messages, limit)| <= Minus(n, done)
    && (s.phase.Recovering? ==> |LeftOut(s, limit)| <= Minus(n, done + max))
  }

  lemma SettlingDrains(s: Sys, limit: int, id: nat, status: Status)
    requires id < |s.messages| && status != Pending
    ensures Backlog(Mark(s, id, status).messages, limit) == Backlog(s.messages, limit) - {id}
  {
  }

  lemma RecordingDrains(s: Sys, limit: int, m: Message)
    requires m.createdAt > limit
    ensures Backlog(s.messages + [m], limit) == Backlog(s.messages, limit)
  {
  }

  lemma TakeDrains(s: Sys, limit: int, thresholdMs: int, max: nat, n: nat, done: nat)
    requires Kept(s) && Drains(s, limit, thresholdMs, max, n, done)
    requires s.phase.Recovering? && s.phase.todo != [] && s.phase.current.None?
    ensures Drains(TakeNext(s), limit, thresholdMs, max, n, done)
  {
    hide TableKept, RunsKept, Backlog;
    var todo := s.phase.todo;
    assert todo[0] in todo;
    assert todo == [todo[0]] + todo[1..];
    SettlingDrains(s, limit, todo[0], Processed);
    FewerRemain(Backlog(s.messages, limit) - {todo[0]}, Backlog(s.messages, limit));
    FewerRemain(LeftOut(TakeNext(s), limit), LeftOut(s, limit));
  }

  lemma RecoveryEndDrains(s: Sys, limit: int, thresholdMs: int, max: nat, n: nat, done: nat, ending: Ending)
    requires Kept(s) && Drains(s, limit, thresholdMs, max, n, done) && s.phase.Recovering? && s.phase.current.Some?
    ensures Drains(Next(s, RecoveryEnd(ending)), limit, thresholdMs, max, n, done)
  {
    hide TableKept, RunsKept, Backlog;
    var id := s.phase.current.value;
    SettlingDrains(s, limit, id, RecoveredStatus(s.messages[id].kind, ending));
    FewerRemain(Backlog(s.messages, limit) - {id}, Backlog(s.messages, limit));
    FewerRemain(LeftOut(Next(s, RecoveryEnd(ending)), limit), LeftOut(s, limit));
  }

  lemma BootDrains(s: Sys, limit: int, thresholdMs: int, max: nat, n: nat, done: nat, order: seq<nat>)
    requires Drains(s, limit, thresholdMs, max, n, done) && s.phase.Down? && IsQueue(s.messages, order)
    ensures Drains(Next(s, Boot(thresholdMs, max, order)), limit, thresholdMs, max, n, done)
  {
    hide Eligible, Backlog, IsQueue;
    SweepReaches(s.messages, s.now, thresholdMs, max, order, limit);
    assert LeftOut(Next(s, Boot(thresholdMs, max, order)), limit)
        == Backlog(s.messages, limit) - IdsOf(Eligible(s.messages, s.now, thresholdMs, max, order));
  }

  /** A completed sweep has settled everything it went for. */
  lemma SweptDrains(s: Sys, limit: int, thresholdMs: int, max: nat, n: nat, done: nat)
    requires Drains(s, limit, thresholdMs, max, n, done) && s.phase == Recovering([], None)
    ensures Drains(Next(s, BootDone), limit, thresholdMs, max, n, done + max)
  {
    hide Backlog;
    assert LeftOut(s, limit) == Backlog(s.messages, limit);
  }

  lemma LaterStamp(now: int, ms: nat)
    ensures Stamp(now) <= Stamp(now + ms) <= now + ms
  {
  }

  lemma StepDrains(s: Sys, e: Event, limit: int, thresholdMs: int, max: nat, n: nat, done: nat)
    requires Kept(s) && Drains(s, limit, thresholdMs, max, n, done)
    requires e.Boot? ==> e.thresholdMs == thresholdMs && e.maxPerBoot == max
    ensures Drains(Next(s, e), limit, thresholdMs, max, n,
                   if e == BootDone && s.phase == Recovering([], None) then done + max else done)
  {
    hide Eligible, TakeNext, Known, TableKept, RunsKept, Backlog, IsQueue, Stamp;
    match e
    case Elapse(ms) =>
      LaterStamp(s.now, ms);
      assert LeftOut(Next(s, e), limit) == LeftOut(s, limit);
    case Webhook(waId, kind) =>
      RecordingDrains(s, limit, Message(waId, kind, Stamp(s.now), if kind.Other? then Processed else Pending));
    case RecordOnly(waId, kind) => RecordingDrains(s, limit, Message(waId, kind, Stamp(s.now), Pending));
    case LiveEnd(id, ending) =>
      if id < |s.messages| {
        SettlingDrains(s, limit, id, if ending.Returned? then Processed else Failed);
        FewerRemain(Backlog(s.messages, limit) - {id}, Backlog(s.messages, limit));
      }
    case RecoveryEnd(ending) =>
      if s.phase.Recovering? && s.phase.current.Some? {
        RecoveryEndDrains(s, limit, thresholdMs, max, n, done, ending);
      }
    case Boot(_, _, order) =>
      if s.phase.Down? && IsQueue(s.messages, order) { BootDrains(s, limit, thresholdMs, max, n, done, order); }
    case Take =>
      if s.phase.Recovering? && s.phase.todo != [] && s.phase.current.None? {
        TakeDrains(s, limit, thresholdMs, max, n, done);
      }
    case BootDone => if s.phase == Recovering([], None) { SweptDrains(s, limit, thresholdMs, max, n, done); }
    case Crash =>
  }

  lemma {:induction false} RunDrains(s: Sys, events: seq<Event>, limit: int, thresholdMs: int, max: nat, n: nat)
    requires Kept(s) && Drains(s, limit, thresholdMs, max, n, 0) && SameSettings(events, thresholdMs, max)
    ensures Drains(Run(s, events), limit, thresholdMs, max, n, max * Boots(s, events))
  {
    hide Kept, Drains, Next;
    if events != [] {
      var before, e := events[..|events| - 1], events[|events| - 1];
      RunDrains(s, before, limit, thresholdMs, max, n);
      RunKept(s, before);
      StepDrains(Run(s, before), e, limit, thresholdMs, max, n, max * Boots(s, before));
      assert max * (Boots(s, before) + 1) == max * Boots(s, before) + max;
    }
  }

  /**
   * Oldest first: whatever instant is taken, the messages recorded by then and
   * pending when the process goes down shrink by the quota with every boot that
   * completes, whatever crashes, arrivals and handler failures happen in between
   * and in whatever order messages of one second are listed; `n` of them are
   * settled by `n / max` boots, rounded up.
   */
  lemma BacklogDrains(s: Sys, events: seq<Event>, limit: int, thresholdMs: int, max: nat)
    requires Kept(s) && s.phase.Down? && limit < Stamp(s.now) && limit <= s.now - thresholdMs
    requires SameSettings(events, thresholdMs, max)
    ensures var n := |Backlog(s.messages, limit)|;
      var left := Backlog(Run(s, events).messages, limit);
      && |left| <= Minus(n, max * Boots(s, events))
      && (max >= 1 && Boots(s, events) >= (n + max - 1) / max ==> left == {})
  {
    hide Kept, Run, Boots, Backlog, Stamp;
    var n := |Backlog(s.messages, limit)|;
    RunDrains(s, events, limit, thresholdMs, max, n);
    if max >= 1 && Boots(s, events) >= (n + max - 1) / max {
      EnoughBoots(n, max, Boots(s, events));
    }
  }

  lemma EnoughBoots(n: nat, max: nat, boots: nat)
    requires max >= 1 && boots >= (n + max - 1) / max
    ensures max * boots >= n
  {
    var needed := (n + max - 1) / max;
    assert max * needed + max > n + max - 1 by {
      assert n + max - 1 == max * needed + (n + max - 1) % max;
    }
    assert max * boots >= max * needed;
  }
}
