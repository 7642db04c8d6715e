/**
 * Inbound messages as a state machine: recorded once by the webhook, handled in
 * the background, and swept up at the next boot when the process died first.
 * One event is what the process does between two awaits; a death between the
 * insert of a message and the start of its handler is an event of its own.
 */
module InboxMachine {
  import opened Common

  /** Audio carries what a second fetch needs only if its key was kept; other media has no handler. */
  datatype Kind = Text | Audio(recoverable: bool) | Other

  datatype Status = Pending | Processed | Failed

  /** A row; its id is its position in the table, and it is stamped with the second it was recorded in. */
  datatype Message = Message(waId: string, kind: Kind, createdAt: int, status: Status)

  /** How a handler ended; expired media is told apart from any other failure. */
  datatype Ending = Returned | MediaGone | Threw

  /** The process is down, sweeping at boot, or accepting webhooks with some handlers running. */
  datatype Phase = Down | Recovering(todo: seq<nat>, current: Option<nat>) | Listening(live: set<nat>)

  datatype Sys = Sys(
    messages: seq<Message>, now: int, phase: Phase,
    starts: seq<nat>,        // handler runs of each message so far
    interrupted: seq<nat>)   // those a crash cut short

  datatype Event =
    | Elapse(ms: nat)
    | Webhook(waId: string, kind: Kind)      // an absent id is the empty string
    | RecordOnly(waId: string, kind: Kind)   // the process dies right after the insert
    | LiveEnd(id: nat, ending: Ending)
    | Boot(thresholdMs: int, maxPerBoot: nat, order: seq<nat>)   // the pending messages as the query returns them
    | Take
    | RecoveryEnd(ending: Ending)
    | BootDone
    | Crash

  function Init(now: int): Sys {
    Sys([], now, Down, [], [])
  }

  predicate Known(messages: seq<Message>, waId: string) {
    exists i :: 0 <= i < |messages| && messages[i].waId == waId
  }

  predicate Handling(phase: Phase, id: nat) {
    match phase
    case Down => false
    case Recovering(_, current) => current == Some(id)
    case Listening(live) => id in live
  }

  /** What the query for pending messages may return: each once, by second of recording, in any order within one. */
  predicate IsQueue(messages: seq<Message>, order: seq<nat>) {
    && (forall i, j :: 0 <= i < j < |order| ==> order[i] != order[j])
    && (forall id <- order :: id < |messages| && messages[id].status == Pending)
    && (forall id :: 0 <= id < |messages| && messages[id].status == Pending ==> id in order)
    && (forall i, j :: 0 <= i < j < |order| && order[i] < |messages| && order[j] < |messages|
          ==> messages[order[i]].createdAt <= messages[order[j]].createdAt)
  }

  /** Those recorded no later than `limit`, in the order listed. */
  function RecordedBy(messages: seq<Message>, limit: int, order: seq<nat>): seq<nat> {
    if order == [] then []
    else
      var last := order[|order| - 1];
      RecordedBy(messages, limit, order[..|order| - 1])
      + if last < |messages| && messages[last].createdAt <= limit then [last] else []
  }

  /** What a boot sweeps: messages at least `thresholdMs` old, at most `maxPerBoot` of them. */
  function Eligible(messages: seq<Message>, now: int, thresholdMs: int, maxPerBoot: nat, order: seq<nat>): seq<nat> {
    var candidates := RecordedBy(messages, now - thresholdMs, order);
    if |candidates| <= maxPerBoot then candidates else candidates[..maxPerBoot]
  }

  /** `datetime('now')`, in whole seconds. */
  function Stamp(now: int): int {
    now - now % 1000
  }

  function Mark(s: Sys, id: nat, status: Status): Sys
    requires id < |s.messages|
  {
    s.(messages := s.messages[id := s.messages[id].(status := status)])
  }

  function Crashed(s: Sys): Sys {
    s.(phase := Down,
       interrupted := seq(|s.interrupted|, i requires 0 <= i < |s.interrupted| =>
         s.interrupted[i] + if Handling(s.phase, i) then 1 else 0))
  }

  function Record(s: Sys, waId: string, kind: Kind, status: Status, starts: nat): Sys {
    s.(messages := s.messages + [Message(waId, kind, Stamp(s.now), status)], starts := s.starts + [starts],
       interrupted := s.interrupted + [0])
  }

  /** Recorded and, when it has a handler, started in the background without being awaited. */
  function Receive(s: Sys, waId: string, kind: Kind): Sys
    requires s.phase.Listening?
  {
    if kind.Other? then Record(s, waId, kind, Processed, 0)
    else Record(s, waId, kind, Pending, 1).(phase := Listening(s.phase.live + {|s.messages|}))
  }

  predicate HasHandler(kind: Kind) {
    kind.Text? || (kind.Audio? && kind.recoverable)
  }

  function TakeNext(s: Sys): Sys
    requires s.phase.Recovering? && s.phase.todo != []
  {
    var id, rest := s.phase.todo[0], s.phase.todo[1..];
    if id >= |s.messages| || id >= |s.starts| then s
    else if HasHandler(s.messages[id].kind) then
      s.(phase := Recovering(rest, Some(id)), starts := s.starts[id := s.starts[id] + 1])
    else Mark(s, id, Processed).(phase := Recovering(rest, None))
  }

  function RecoveredStatus(kind: Kind, ending: Ending): Status {
    if ending.Returned? || (ending.MediaGone? && kind.Audio?) then Processed else Failed
  }

  function Next(s: Sys, e: Event): Sys {
    match e
    case Elapse(ms) => s.(now := s.now + ms)
    case Webhook(waId, kind) =>
      if !s.phase.Listening? || waId == "" || Known(s.messages, waId) then s else Receive(s, waId, kind)
    case RecordOnly(waId, kind) =>
      if !s.phase.Listening? || waId == "" || Known(s.messages, waId) then s
      else Crashed(Record(s, waId, kind, Pending, 0))
    case LiveEnd(id, ending) =>
      if s.phase.Listening? && id in s.phase.live && id < |s.messages| then
        Mark(s, id, if ending.Returned? then Processed else Failed).(phase := Listening(s.phase.live - {id}))
      else s
    case Boot(thresholdMs, maxPerBoot, order) =>
      if s.phase.Down? && IsQueue(s.messages, order) then
        s.(phase := Recovering(Eligible(s.messages, s.now, thresholdMs, maxPerBoot, order), None))
      else s
    case Take => if s.phase.Recovering? && s.phase.todo != [] && s.phase.current.None? then TakeNext(s) else s
    case RecoveryEnd(ending) =>
      if s.phase.Recovering? && s.phase.current.Some? && s.phase.current.value < |s.messages| then
        var id := s.phase.current.value;
        Mark(s, id, RecoveredStatus(s.messages[id].kind, ending)).(phase := Recovering(s.phase.todo, None))
      else s
    case BootDone => if s.phase == Recovering([], None) then s.(phase := Listening({})) else s
    case Crash => Crashed(s)
  }

  function Run(s: Sys, events: seq<Event>): Sys {
    if events == [] then s else Next(Run(s, events[..|events| - 1]), events[|events| - 1])
  }
}
