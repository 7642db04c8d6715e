/**
 * The outbox as a state machine. One event is what the process does between two
 * awaits. Where that is more than one statement on the table, namely when a
 * message is settled, a crash between the statements is an event of its own. The
 * functions are total: an event that cannot happen in a state leaves it unchanged.
 */
module OutboxMachine {
  import opened Common
  import opened OutboxTable

  /** How the send and the delivery callback ended, as the processor sees it. */
  datatype Outcome = Confirmed(callbackThrows: bool) | Rejected

  /** The last statement of a settlement before a crash: delivered mark, attempt count, or failed mark. */
  datatype Cut = AfterMark | AfterCount | AfterFail

  datatype Event =
    | Enqueue(isProactive: bool, isAnchorRitual: bool)
    | Elapse(ms: nat)
    | Poll                       // processPending is called
    | Advance                    // a pass takes its next message, or finishes
    | Depart                     // the gateway accepts the text in flight, which the processor cannot see
    | Reply(outcome: Outcome)    // the message in flight is settled
    | Crash                      // the process dies and restarts, or an alert throws and ends the pass
    | CrashInSettle(outcome: Outcome, cut: Cut)   // it dies between the statements that settle a message

  /**
   * What happened to one row: when it was claimed and when its text went out.
   * Of the sends, `air` is the one whose reply is awaited, `arrivedAt` the one
   * that ended delivered, and `lostAt` are those the table does not know of.
   * `cut` tells where a crash cut its settlement short, if one did.
   */
  datatype Trail = Trail(
    claimedAt: seq<int>, sentAt: seq<int>, air: Option<int>, arrivedAt: Option<int>, lostAt: seq<int>, alerts: nat,
    cut: Option<Cut>)

  const NO_TRAIL := Trail([], [], None, None, [], 0, None)

  datatype Sys = Sys(
    rows: seq<Row>, trails: seq<Trail>, now: int, cap: nat,
    isRunning: bool, batch: seq<Message>, inFlight: Option<Message>,
    heldAnchorAt: seq<int>, ordinarySentAt: seq<int>)   // of the current pass

  function Init(now: int, cap: nat): Sys {
    Sys([], [], now, cap, false, [], None, [], [])
  }

  function Claim(s: Sys, m: Message): Sys
    requires m.id < |s.rows| == |s.trails|
  {
    var trail := s.trails[m.id];
    s.(rows := s.rows[m.id := s.rows[m.id].(status := Sending)],
       trails := s.trails[m.id := trail.(claimedAt := trail.claimedAt + [s.now])],
       inFlight := Some(m))
  }

  /** The text goes out, unless it already has. */
  function Departed(t: Trail, now: int): Trail {
    if t.air.Some? then t else t.(air := Some(now), sentAt := t.sentAt + [now])
  }

  /** A text that went out without its row ending delivered. */
  function Lost(t: Trail): Trail {
    if t.air.None? then t else t.(air := None, lostAt := t.lostAt + [t.air.value])
  }

  predicate OverCap(s: Sys) {
    ProactiveCapReached(CountProactiveSentSince(s.rows, StartOfToday(s.now)), s.cap)
  }

  function Take(s: Sys): Sys
    requires s.batch != []
  {
    var m := s.batch[0];
    var rest := s.(batch := s.batch[1..]);
    if m.row.isProactive && OverCap(s) then
      if m.row.isAnchorRitual then rest.(heldAnchorAt := s.heldAnchorAt + [s.now]) else rest
    else if m.id < |s.rows| == |s.trails| && s.rows[m.id].status == Pending then Claim(rest, m)
    else rest
  }

  /** The row after `handleSendFailure`, which counts from the attempts the pass read. */
  function FailedRow(r: Row, m: Message, now: int): Row {
    var counted := r.(attempts := r.attempts + 1);
    if RetriesExhausted(m.row.attempts + 1) then counted.(status := Failed)
    else counted.(status := Pending, retryAfter := Some(now + NextRetryDelayMs(m.row.attempts + 1)))
  }

  function DeliveredRow(r: Row, now: int): Row {
    r.(status := Delivered, deliveredAt := Some(now))
  }

  function SettledRow(r: Row, m: Message, outcome: Outcome, now: int): Row {
    match outcome
    case Rejected => FailedRow(r, m, now)
    case Confirmed(throws) =>
      if throws then FailedRow(DeliveredRow(r, now), m, now) else DeliveredRow(r, now)
  }

  function SettledTrail(t: Trail, m: Message, outcome: Outcome, now: int): Trail {
    var sent := if outcome.Confirmed? then Departed(t, now) else t;
    if outcome == Confirmed(false) then sent.(air := None, arrivedAt := sent.air)
    else if RetriesExhausted(m.row.attempts + 1) then Lost(sent).(alerts := t.alerts + 1)
    else Lost(sent)
  }

  /** The settlement of such an outcome gets to that statement. */
  predicate GetsTo(m: Message, outcome: Outcome, cut: Cut) {
    match cut
    case AfterMark => outcome.Confirmed?
    case AfterCount => outcome != Confirmed(false)
    case AfterFail => outcome != Confirmed(false) && RetriesExhausted(m.row.attempts + 1)
  }

  function CutRow(r: Row, outcome: Outcome, cut: Cut, now: int): Row {
    var marked := if outcome.Confirmed? then DeliveredRow(r, now) else r;
    match cut
    case AfterMark => marked
    case AfterCount => marked.(attempts := r.attempts + 1)
    case AfterFail => marked.(attempts := r.attempts + 1, status := Failed)
  }

  function CutTrail(t: Trail, outcome: Outcome, cut: Cut, now: int): Trail {
    var sent := if outcome.Confirmed? then Departed(t, now) else t;
    var arrived := outcome.Confirmed? && cut != AfterFail;
    (if arrived then sent.(air := None, arrivedAt := sent.air) else Lost(sent)).(cut := Some(cut))
  }

  predicate Ordinary(m: Message) {
    m.row.isProactive && !m.row.isAnchorRitual
  }

  function Settle(s: Sys, m: Message, outcome: Outcome): Sys
    requires m.id < |s.rows| == |s.trails|
  {
    s.(rows := s.rows[m.id := SettledRow(s.rows[m.id], m, outcome, s.now)],
       trails := s.trails[m.id := SettledTrail(s.trails[m.id], m, outcome, s.now)],
       inFlight := None,
       ordinarySentAt := if outcome.Confirmed? && Ordinary(m) then s.ordinarySentAt + [s.now] else s.ordinarySentAt)
  }

  function Leave(s: Sys, m: Message): Sys
    requires m.id < |s.rows| == |s.trails|
  {
    s.(trails := s.trails[m.id := Departed(s.trails[m.id], s.now)],
       ordinarySentAt := if Ordinary(m) then s.ordinarySentAt + [s.now] else s.ordinarySentAt)
  }

  function Down(s: Sys): Sys {
    s.(isRunning := false, batch := [], inFlight := None, heldAnchorAt := [], ordinarySentAt := [])
  }

  /** Memory is gone, and with it the reply to a text that is out. */
  function Crashed(s: Sys): Sys {
    if s.inFlight.None? || s.inFlight.value.id >= |s.trails| then Down(s)
    else Down(s).(trails := s.trails[s.inFlight.value.id := Lost(s.trails[s.inFlight.value.id])])
  }

  /** Memory is gone with the message settled in part. */
  function CutShort(s: Sys, m: Message, outcome: Outcome, cut: Cut): Sys
    requires m.id < |s.rows| == |s.trails|
  {
    Down(s).(rows := s.rows[m.id := CutRow(s.rows[m.id], outcome, cut, s.now)],
             trails := s.trails[m.id := CutTrail(s.trails[m.id], outcome, cut, s.now)])
  }

  predicate InFlight(s: Sys) {
    s.inFlight.Some? && s.inFlight.value.id < |s.rows| == |s.trails|
  }

  function Next(s: Sys, e: Event): Sys {
    match e
    case Enqueue(isProactive, isAnchorRitual) =>
      s.(rows := s.rows + [NewRow(isProactive, isAnchorRitual, s.now)], trails := s.trails + [NO_TRAIL])
    case Elapse(ms) => s.(now := s.now + ms)
    case Poll =>
      if s.isRunning then s
      else s.(isRunning := true, batch := FindPending(s.rows, s.now), heldAnchorAt := [], ordinarySentAt := [])
    case Advance =>
      if !s.isRunning || s.inFlight.Some? then s
      else if s.batch == [] then s.(isRunning := false)
      else Take(s)
    case Depart =>
      if InFlight(s) then Leave(s, s.inFlight.value) else s
    case Reply(outcome) =>
      if InFlight(s) then Settle(s, s.inFlight.value, outcome) else s
    case Crash => Crashed(s)
    case CrashInSettle(outcome, cut) =>
      if InFlight(s) && GetsTo(s.inFlight.value, outcome, cut) then CutShort(s, s.inFlight.value, outcome, cut) else s
  }

  function Run(s: Sys, events: seq<Event>): Sys {
    if events == [] then s else Next(Run(s, events[..|events| - 1]), events[|events| - 1])
  }

  lemma RunExtends(s: Sys, events: seq<Event>, e: Event)
    ensures Run(s, events + [e]) == Next(Run(s, events), e)
  {
    assert (events + [e])[..|events|] == events;
  }
}
