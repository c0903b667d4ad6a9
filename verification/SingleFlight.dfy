/** Concurrent Send calls of the SMS adapter over one send table, as a step
    system. Each critical section of the table, each channel close and each
    wake-up is one step, so sends interleave at every point the mutex allows. */
module SingleFlight {
  import opened SendTable
  import opened Wrappers

  datatype Result = Sent | Suppressed | Failed | TimedOut

  /** A Send call: about to reserve, doing its carrier round, past the critical
      section of commit or release but with the channel still open, waiting on
      another call's slot, or returned. */
  datatype Phase =
    | Looping
    | Posting(slot: nat)
    | Committing(slot: nat)
    | Releasing(slot: nat)
    | Blocked(slot: nat)
    | Done(result: Result)

  datatype Sender = Sender(id: string, tenantId: string, phase: Phase)

  /** What an observer of the carrier and of the table's memory sees. */
  datatype Event =
    | Began(id: string)
    | CarrierAccepted(id: string, messageId: string)
    | RoundFailed(id: string)
    | Forgot(ids: set<string>)

  /** `owner` records, per slot, the interaction it was reserved for. */
  datatype State = State(table: Table, owner: seq<string>, senders: seq<Sender>, log: seq<Event>)

  datatype Action =
    | Call(id: string, tenantId: string)
    | Reserve(k: nat)
    | Accept(k: nat, messageId: string)
    | Reject(k: nat)
    | CloseDone(k: nat)
    | Wake(k: nat)
    | TimeOut(k: nat)

  function Init(cap: nat): State {
    State(Table(cap, [], map[], [], map[]), [], [], [])
  }

  predicate Enabled(s: State, a: Action) {
    match a
    case Call(_, _) => true
    case Reserve(k) => k < |s.senders| && s.senders[k].phase.Looping? && InRange(s.table)
    case Accept(k, _) =>
      k < |s.senders| && s.senders[k].phase.Posting? && s.senders[k].phase.slot < |s.table.cells|
    case Reject(k) => k < |s.senders| && s.senders[k].phase.Posting?
    case CloseDone(k) =>
      k < |s.senders| && (s.senders[k].phase.Committing? || s.senders[k].phase.Releasing?)
      && s.senders[k].phase.slot < |s.table.cells|
    case Wake(k) =>
      k < |s.senders| && s.senders[k].phase.Blocked? && s.senders[k].phase.slot < |s.table.cells|
      && s.table.cells[s.senders[k].phase.slot].closed
    case TimeOut(k) => k < |s.senders| && s.senders[k].phase.Blocked?
  }

  function Moved(s: State, k: nat, p: Phase): State
    requires k < |s.senders|
  {
    s.(senders := s.senders[k := s.senders[k].(phase := p)])
  }

  function DoReserve(s: State, k: nat): State
    requires Enabled(s, Reserve(k))
  {
    var id := s.senders[k].id;
    if id in s.table.slots then Moved(s, k, Blocked(s.table.slots[id]))
    else
      var t := Reserved(s.table, id);
      var forgotten := s.table.slots.Keys - t.slots.Keys;
      Moved(s, k, Posting(|s.table.cells|)).(
        table := t, owner := s.owner + [id], log := s.log + [Began(id), Forgot(forgotten)])
  }

  function DoAccept(s: State, k: nat, messageId: string): State
    requires Enabled(s, Accept(k, messageId))
  {
    var sender := s.senders[k];
    var slot := sender.phase.slot;
    Moved(s, k, Committing(slot)).(
      table := Recorded(s.table, slot, Record(sender.id, sender.tenantId, messageId)),
      log := s.log + [CarrierAccepted(sender.id, messageId)])
  }

  function DoReject(s: State, k: nat): State
    requires Enabled(s, Reject(k))
  {
    var sender := s.senders[k];
    var slot := sender.phase.slot;
    Moved(s, k, Releasing(slot)).(
      table := Dropped(s.table, sender.id, slot), log := s.log + [RoundFailed(sender.id)])
  }

  function DoClose(s: State, k: nat): State
    requires Enabled(s, CloseDone(k))
  {
    var p := s.senders[k].phase;
    Moved(s, k, Done(if p.Committing? then Sent else Failed)).(table := Closed(s.table, p.slot))
  }

  function DoWake(s: State, k: nat): State
    requires Enabled(s, Wake(k))
  {
    Moved(s, k, if s.table.cells[s.senders[k].phase.slot].rec.Some? then Done(Suppressed) else Looping)
  }

  function Apply(s: State, a: Action): State
    requires Enabled(s, a)
  {
    match a
    case Call(id, tenantId) => s.(senders := s.senders + [Sender(id, tenantId, Looping)])
    case Reserve(k) => DoReserve(s, k)
    case Accept(k, messageId) => DoAccept(s, k, messageId)
    case Reject(k) => DoReject(s, k)
    case CloseDone(k) => DoClose(s, k)
    case Wake(k) => DoWake(s, k)
    case TimeOut(k) => Moved(s, k, Done(TimedOut))
  }

  ghost predicate Reaches(s: State, acts: seq<Action>, t: State)
    decreases |acts|
  {
    if acts == [] then s == t
    else Enabled(s, acts[0]) && Reaches(Apply(s, acts[0]), acts[1..], t)
  }

  // ---- reading the log ----

  function OutstandingAfter(before: set<string>, e: Event): set<string> {
    match e
    case Began(id) => before + {id}
    case CarrierAccepted(id, _) => before - {id}
    case RoundFailed(id) => before - {id}
    case Forgot(_) => before
  }

  function RememberedAfter(before: set<string>, e: Event): set<string> {
    match e
    case CarrierAccepted(id, _) => before + {id}
    case Forgot(ids) => before - ids
    case _ => before
  }

  function AcceptedAfter(before: set<string>, e: Event): set<string> {
    match e
    case CarrierAccepted(id, _) => before + {id}
    case _ => before
  }

  /** Interactions whose carrier round has begun and not ended. */
  ghost function Outstanding(log: seq<Event>): set<string> {
    if log == [] then {} else OutstandingAfter(Outstanding(log[..|log| - 1]), log[|log| - 1])
  }

  /** Interactions the carrier accepted and eviction has not forgotten since. */
  ghost function Remembered(log: seq<Event>): set<string> {
    if log == [] then {} else RememberedAfter(Remembered(log[..|log| - 1]), log[|log| - 1])
  }

  ghost function EverAccepted(log: seq<Event>): set<string> {
    if log == [] then {} else AcceptedAfter(EverAccepted(log[..|log| - 1]), log[|log| - 1])
  }

  /** A round begins only when none is outstanding for its interaction and no
      earlier acceptance is remembered, and ends at most once. */
  ghost predicate Legal(before: seq<Event>, e: Event) {
    match e
    case Began(id) => id !in Outstanding(before) && id !in Remembered(before)
    case CarrierAccepted(id, _) => id in Outstanding(before)
    case RoundFailed(id) => id in Outstanding(before)
    case Forgot(_) => true
  }

  ghost predicate WellLogged(log: seq<Event>) {
    forall j | 0 <= j < |log| :: Legal(log[..j], log[j])
  }

  lemma LogAppend(log: seq<Event>, e: Event)
    ensures Outstanding(log + [e]) == OutstandingAfter(Outstanding(log), e)
    ensures Remembered(log + [e]) == RememberedAfter(Remembered(log), e)
    ensures EverAccepted(log + [e]) == AcceptedAfter(EverAccepted(log), e)
  {
    assert (log + [e])[..|log|] == log;
  }

  lemma WellLoggedAppend(log: seq<Event>, e: Event)
    requires WellLogged(log) && Legal(log, e)
    ensures WellLogged(log + [e])
  {
    var after := log + [e];
    forall j | 0 <= j < |after|
      ensures Legal(after[..j], after[j])
    {
      assert after[..j] == if j < |log| then log[..j] else log;
    }
  }

  // ---- the invariant ----

  predicate Owns(p: Phase) {
    p.Posting? || p.Committing? || p.Releasing?
  }

  predicate Holds(t: Table, id: string, slot: nat) {
    id in t.slots && t.slots[id] == slot
  }

  /** What a sender's phase says about the slot it points at. */
  predicate SenderOk(t: Table, owner: seq<string>, x: Sender)
    requires |owner| == |t.cells|
  {
    match x.phase
    case Posting(slot) =>
      slot < |owner| && owner[slot] == x.id && Holds(t, x.id, slot) && t.cells[slot] == Slot(None, false)
    case Committing(slot) =>
      slot < |owner| && owner[slot] == x.id && Holds(t, x.id, slot)
      && t.cells[slot].rec.Some? && !t.cells[slot].closed
    case Releasing(slot) =>
      slot < |owner| && owner[slot] == x.id && !Holds(t, x.id, slot) && t.cells[slot] == Slot(None, false)
    case Blocked(slot) => slot < |owner| && owner[slot] == x.id
    case _ => true
  }

  ghost predicate Cells(s: State) {
    && Valid(s.table) && |s.owner| == |s.table.cells|
    && (forall id | id in s.table.slots :: s.owner[s.table.slots[id]] == id)
    && (forall c | 0 <= c < |s.owner| && s.table.cells[c].rec.Some? :: s.table.cells[c].rec.value.interactionId == s.owner[c])
    && (forall id | id in s.table.slots && s.table.cells[s.table.slots[id]].closed ::
          s.table.cells[s.table.slots[id]].rec.Some?)
  }

  ghost predicate Senders(s: State)
    requires |s.owner| == |s.table.cells|
  {
    && (forall k | 0 <= k < |s.senders| :: SenderOk(s.table, s.owner, s.senders[k]))
    && (forall i, j | 0 <= i < |s.senders| && 0 <= j < |s.senders| && i != j
                      && Owns(s.senders[i].phase) && Owns(s.senders[j].phase) ::
          s.senders[i].phase.slot != s.senders[j].phase.slot)
  }

  /** Every slot still open is being worked on by some sender. */
  ghost predicate Attended(s: State) {
    forall c | 0 <= c < |s.table.cells| && !s.table.cells[c].closed ::
      exists k :: 0 <= k < |s.senders| && Owns(s.senders[k].phase) && s.senders[k].phase.slot == c
  }

  /** The log's running state is the table's. */
  ghost predicate Logged(s: State)
    requires InRange(s.table)
  {
    && WellLogged(s.log)
    && (forall id :: id in Outstanding(s.log) <==> id in s.table.slots && s.table.cells[s.table.slots[id]].rec.None?)
    && (forall id :: id in Remembered(s.log) <==> id in s.table.slots && s.table.cells[s.table.slots[id]].rec.Some?)
  }

  /** A record is only ever left behind by a carrier acceptance. */
  ghost predicate Honest(s: State)
    requires |s.owner| == |s.table.cells|
  {
    && (forall c | 0 <= c < |s.owner| && s.table.cells[c].rec.Some? :: s.owner[c] in EverAccepted(s.log))
    && (forall k | 0 <= k < |s.senders| && (s.senders[k].phase == Done(Sent) || s.senders[k].phase == Done(Suppressed)) ::
          s.senders[k].id in EverAccepted(s.log))
  }

  ghost predicate Inv(s: State) {
    Cells(s) && Senders(s) && Attended(s) && Logged(s) && Honest(s)
  }
}
