/** The interaction lifecycle, the service that moves interactions through it
    transactionally, and the processor that maps carrier events onto it. */
module Interactions {
  import opened Wrappers

  datatype Status = Pending | Active | Wrapup | Completed | Failed | Canceled

  function Successors(s: Status): seq<Status> {
    match s
    case Pending => [Active, Canceled, Failed]
    case Active => [Wrapup, Completed, Failed]
    case Wrapup => [Completed, Failed]
    case Completed | Failed | Canceled => []
  }

  predicate CanTransition(from: Status, to: Status) {
    to in Successors(from)
  }

  predicate Terminal(s: Status) {
    |Successors(s)| == 0
  }

  datatype Error = NotFound | InvalidTransition | Malformed | UnknownEvent | Internal

  /** The lifecycle rule as the service asks it: nil, or a conflict. */
  function Refusal(from: Status, to: Status): Option<Error> {
    if from == to || !CanTransition(from, to) then Some(InvalidTransition) else None
  }

  /** Interactions are always looked up within their tenant. */
  datatype Key = Key(tenant: string, id: string)

  datatype Rec = Rec(status: Status, answeredAt: Option<int>, endedAt: Option<int>, endReason: string)

  /** The domain event a transition appends in its transaction, with the
      transaction's clock. Only an ending carries a reason. */
  datatype Moved = Moved(key: Key, completes: bool, from: Status, to: Status, reason: string, at: int)

  datatype Store = Store(rows: map<Key, Rec>, outbox: seq<Moved>)

  const FRESH := Rec(Pending, None, None, "")

  function Created(s: Store, key: Key): Store {
    if key in s.rows then s else s.(rows := s.rows[key := FRESH])
  }

  function Changed(r: Rec, to: Status, reason: string, now: int): Rec {
    Rec(to,
        if to.Active? then Some(now) else r.answeredAt,
        if Terminal(to) then Some(now) else None,
        if Terminal(to) && reason != "" then reason else r.endReason)
  }

  predicate Legal(s: Store, key: Key, to: Status) {
    key in s.rows && Refusal(s.rows[key].status, to).None?
  }

  /** The committed effect of a transition: row and event, or neither. */
  function Transitioned(s: Store, key: Key, to: Status, reason: string, now: int): Store {
    if !Legal(s, key, to) then s
    else
      var r := s.rows[key];
      Store(s.rows[key := Changed(r, to, reason, now)],
            s.outbox + [Moved(key, to.Completed?, r.status, to, if Terminal(to) then reason else "", now)])
  }

  /** What the database does to a transaction: fails it, commits it, or commits
      it and then fails the read that builds the response. */
  datatype Db = Down | Commits | CommitsThenDown

  function TransitionError(s: Store, key: Key, to: Status, db: Db): Option<Error> {
    if db.Down? then Some(Internal)
    else if key !in s.rows then Some(NotFound)
    else if Refusal(s.rows[key].status, to).Some? then Some(InvalidTransition)
    else if db.CommitsThenDown? then Some(Internal)
    else None
  }

  class Service {
    var rows: map<Key, Rec>
    var outbox: seq<Moved>

    ghost function Abs(): Store
      reads this
    {
      Store(rows, outbox)
    }

    constructor ()
      ensures Abs() == Store(map[], [])
    {
      rows, outbox := map[], [];
    }

    method Get(key: Key, up: bool) returns (rec: Option<Rec>, err: Option<Error>)
      ensures err == if !up then Some(Internal) else if key in rows then None else Some(NotFound)
      ensures err.None? ==> rec == Some(rows[key])
    {
      if !up { return None, Some(Internal); }
      if key !in rows { return None, Some(NotFound); }
      return Some(rows[key]), None;
    }

    method Transition(key: Key, to: Status, reason: string, now: int, db: Db) returns (err: Option<Error>)
      modifies this
      ensures err == TransitionError(old(Abs()), key, to, db)
      ensures Abs() == if db.Down? then old(Abs()) else Transitioned(old(Abs()), key, to, reason, now)
    {
      if db.Down? { return Some(Internal); }
      if key !in rows { return Some(NotFound); }
      var cur := rows[key];
      var refusal := Refusal(cur.status, to);
      if refusal.Some? { return refusal; }
      var answered := cur.answeredAt;
      if to.Active? { answered := Some(now); }
      var ended, given := None, "";
      if Terminal(to) {
        ended := Some(now);
        given := reason;
      }
      rows := rows[key := Rec(to, answered, ended, if given != "" then given else cur.endReason)];
      outbox := outbox + [Moved(key, to.Completed?, cur.status, to, given, now)];
      if db.CommitsThenDown? { return Some(Internal); }
      return None;
    }
  }

  // ---- carrier events ----

  /** A decoded carrier event; `wellFormedId` says the id parses as a UUID. */
  datatype ProviderEvent = ProviderEvent(
    event: string,
    interactionId: string,
    wellFormedId: bool,
    tenantId: string,
    detail: string)

  function KeyOf(ev: ProviderEvent): Key {
    Key(ev.tenantId, ev.interactionId)
  }

  function Target(event: string): Option<Status> {
    if event in ["call.ringing", "call.connected", "message.sent", "message.delivered"] then Some(Active)
    else if event in ["call.ended", "call.wrapup", "message.wrapup"] then Some(Wrapup)
    else if event == "message.read" then Some(Completed)
    else if event in ["call.failed", "message.failed"] then Some(Failed)
    else None
  }

  /** Whether the event names an interaction and a status at all. */
  function Complaint(ev: ProviderEvent): Option<Error> {
    if ev.interactionId == "" || ev.tenantId == "" || !ev.wellFormedId then Some(Malformed)
    else if Target(ev.event).None? then Some(UnknownEvent)
    else None
  }

  predicate NoOp(s: Store, ev: ProviderEvent)
    requires Complaint(ev).None?
  {
    KeyOf(ev) in s.rows && s.rows[KeyOf(ev)].status == Target(ev.event).value
  }

  /** Answers of the database to the read and to the transition of one Process. */
  datatype Weather = Weather(readUp: bool, db: Db)

  function ProcessError(s: Store, ev: ProviderEvent, w: Weather): Option<Error> {
    if Complaint(ev).Some? then Complaint(ev)
    else if !w.readUp then Some(Internal)
    else if KeyOf(ev) !in s.rows then Some(NotFound)
    else if NoOp(s, ev) then None
    else TransitionError(s, KeyOf(ev), Target(ev.event).value, w.db)
  }

  function Processed(s: Store, ev: ProviderEvent, now: int, w: Weather): Store {
    if Complaint(ev).Some? || !w.readUp || w.db.Down? then s
    else Transitioned(s, KeyOf(ev), Target(ev.event).value, ev.detail, now)
  }

  class Processor {
    const interactions: Service

    constructor (core: Service)
      ensures interactions == core
    {
      interactions := core;
    }

    method Process(ev: ProviderEvent, now: int, w: Weather) returns (err: Option<Error>)
      modifies interactions
      ensures err == ProcessError(old(interactions.Abs()), ev, w)
      ensures interactions.Abs() == Processed(old(interactions.Abs()), ev, now, w)
    {
      if ev.interactionId == "" || ev.tenantId == "" { return Some(Malformed); }
      if !ev.wellFormedId { return Some(Malformed); }
      var to: Status;
      match ev.event {
        case "call.ringing" => to := Active;
        case "call.connected" => to := Active;
        case "message.sent" => to := Active;
        case "message.delivered" => to := Active;
        case "call.ended" => to := Wrapup;
        case "call.wrapup" => to := Wrapup;
        case "message.wrapup" => to := Wrapup;
        case "message.read" => to := Completed;
        case "call.failed" => to := Failed;
        case "message.failed" => to := Failed;
        case _ => return Some(UnknownEvent);
      }
      var cur, missing := interactions.Get(KeyOf(ev), w.readUp);
      if missing.Some? { return missing; }
      if cur.value.status == to { return None; }
      err := interactions.Transition(KeyOf(ev), to, ev.detail, now, w.db);
    }
  }

  // ---- every run: API callers and any number of processors, interleaved ----

  /** A Process call between its read and its transition. */
  datatype Call = Free | Decided(ev: ProviderEvent)

  /** A status some event established: by the transition, or by finding it. */
  datatype Established = Established(key: Key, to: Status)

  datatype State = State(store: Store, calls: map<nat, ProviderEvent>, established: seq<Established>)

  datatype Action =
    | Create(key: Key)
    | Move(key: Key, to: Status, reason: string, now: int, db: Db)
    | Begin(call: nat, ev: ProviderEvent, up: bool)
    | Finish(call: nat, now: int, db: Db)
    | Abandon(call: nat)

  const EMPTY := State(Store(map[], []), map[], [])

  /** Process up to its decision. */
  function Begun(s: State, call: nat, ev: ProviderEvent, up: bool): State {
    if Complaint(ev).Some? || !up || KeyOf(ev) !in s.store.rows then s
    else if NoOp(s.store, ev) then
      s.(established := s.established + [Established(KeyOf(ev), Target(ev.event).value)])
    else s.(calls := s.calls[call := ev])
  }

  function Finished(s: State, call: nat, now: int, db: Db): State
    requires call in s.calls && Target(s.calls[call].event).Some?
  {
    var ev := s.calls[call];
    var to := Target(ev.event).value;
    var left := s.(calls := s.calls - {call});
    if db.Down? || !Legal(s.store, KeyOf(ev), to) then left
    else left.(store := Transitioned(s.store, KeyOf(ev), to, ev.detail, now),
               established := s.established + [Established(KeyOf(ev), to)])
  }

  predicate Enabled(s: State, a: Action) {
    match a
    case Begin(call, _, _) => call !in s.calls
    case Finish(call, _, _) => call in s.calls && Target(s.calls[call].event).Some?
    case Abandon(call) => call in s.calls
    case _ => true
  }

  function Apply(s: State, a: Action): State
    requires Enabled(s, a)
  {
    match a
    case Create(key) => s.(store := Created(s.store, key))
    case Move(key, to, reason, now, db) =>
      s.(store := if db.Down? then s.store else Transitioned(s.store, key, to, reason, now))
    case Begin(call, ev, up) => Begun(s, call, ev, up)
    case Finish(call, now, db) => Finished(s, call, now, db)
    case Abandon(call) => s.(calls := s.calls - {call})
  }

  ghost predicate Reaches(s: State, acts: seq<Action>, t: State)
    decreases |acts|
  {
    if acts == [] then s == t
    else Enabled(s, acts[0]) && Reaches(Apply(s, acts[0]), acts[1..], t)
  }

  // ---- the lifecycle never turns back ----

  function Rank(s: Status): nat {
    match s
    case Pending => 0
    case Active => 1
    case Wrapup => 2
    case Completed | Failed | Canceled => 3
  }

  /** b is a, or comes after a in the lifecycle. */
  ghost predicate Follows(a: Status, b: Status)
    decreases 3 - Rank(a)
  {
    a == b || exists m :: m in Successors(a) && Rank(m) > Rank(a) && Follows(m, b)
  }

  lemma RankRises(a: Status, b: Status)
    requires CanTransition(a, b)
    ensures Rank(a) < Rank(b)
  {
  }

  lemma {:induction false} FollowsRises(a: Status, b: Status)
    requires Follows(a, b)
    ensures a == b || Rank(a) < Rank(b)
    decreases 3 - Rank(a)
  {
    if a != b {
      var m :| m in Successors(a) && Rank(m) > Rank(a) && Follows(m, b);
      FollowsRises(m, b);
    }
  }

  lemma {:induction false} FollowsMore(a: Status, b: Status, c: Status)
    requires Follows(a, b) && CanTransition(b, c)
    ensures Follows(a, c)
    decreases 3 - Rank(a)
  {
    if a == b {
      RankRises(b, c);
      assert Follows(c, c);
    } else {
      var m :| m in Successors(a) && Rank(m) > Rank(a) && Follows(m, b);
      FollowsMore(m, b, c);
    }
  }

  /** A status once left is never entered again. */
  lemma NoReturn(a: Status, b: Status)
    requires Follows(a, b)
    ensures !CanTransition(b, a)
  {
    FollowsRises(a, b);
    if CanTransition(b, a) { RankRises(b, a); }
  }

  // ---- which moves and events apply ----

  /** What each status may be entered from. */
  lemma EnteredFrom(s: Store, key: Key)
    requires key in s.rows
    ensures
      var st := s.rows[key].status;
      && !Legal(s, key, Pending)
      && (Legal(s, key, Active) <==> st.Pending?)
      && (Legal(s, key, Wrapup) <==> st.Active?)
      && (Legal(s, key, Completed) <==> st.Active? || st.Wrapup?)
      && (Legal(s, key, Failed) <==> st.Pending? || st.Active? || st.Wrapup?)
      && (Legal(s, key, Canceled) <==> st.Pending?)
  {
  }

  /** A well-formed event of a known interaction, on a database that answers. */
  predicate Arrives(s: Store, ev: ProviderEvent, w: Weather) {
    ev.interactionId != "" && ev.tenantId != "" && ev.wellFormedId && KeyOf(ev) in s.rows && w == Weather(true, Commits)
  }

  /** The event is answered with success and leaves this row, others untouched. */
  ghost predicate Leaves(s: Store, ev: ProviderEvent, now: int, w: Weather, r: Rec) {
    var t := Processed(s, ev, now, w);
    ProcessError(s, ev, w).None? && t.rows == s.rows[KeyOf(ev) := r]
  }

  ghost predicate Refused(s: Store, ev: ProviderEvent, now: int, w: Weather) {
    ProcessError(s, ev, w) == Some(InvalidTransition) && Processed(s, ev, now, w) == s
  }

  /** A call rings or connects, is hung up, and is wrapped up: the first such event
      of a pending call answers it, repeats change nothing, and hanging up leaves it
      without an end. Out of that order the events are refused. */
  lemma CallEvents(s: Store, ev: ProviderEvent, now: int, w: Weather)
    requires Arrives(s, ev, w)
    ensures
      var r := s.rows[KeyOf(ev)];
      && (ev.event in {"call.ringing", "call.connected"} ==>
            if r.status.Pending? then Leaves(s, ev, now, w, r.(status := Active, answeredAt := Some(now), endedAt := None))
            else if r.status.Active? then Leaves(s, ev, now, w, r)
            else Refused(s, ev, now, w))
      && (ev.event in {"call.ended", "call.wrapup", "message.wrapup"} ==>
            if r.status.Active? then Leaves(s, ev, now, w, r.(status := Wrapup, endedAt := None))
            else if r.status.Wrapup? then Leaves(s, ev, now, w, r)
            else Refused(s, ev, now, w))
  {
  }

  /** A message is sent or delivered, and read: reading completes it unless it was
      never reported sent. */
  lemma MessageEvents(s: Store, ev: ProviderEvent, now: int, w: Weather)
    requires Arrives(s, ev, w)
    ensures
      var r := s.rows[KeyOf(ev)];
      var reason := if ev.detail != "" then ev.detail else r.endReason;
      && (ev.event in {"message.sent", "message.delivered"} ==>
            if r.status.Pending? then Leaves(s, ev, now, w, r.(status := Active, answeredAt := Some(now), endedAt := None))
            else if r.status.Active? then Leaves(s, ev, now, w, r)
            else Refused(s, ev, now, w))
      && (ev.event == "message.read" ==>
            if r.status.Active? || r.status.Wrapup?
            then Leaves(s, ev, now, w, r.(status := Completed, endedAt := Some(now), endReason := reason))
            else if r.status.Completed? then Leaves(s, ev, now, w, r)
            else Refused(s, ev, now, w))
  {
  }

  /** A failure ends any interaction that has not ended, with the carrier's detail as
      the reason; of the ended ones only a failed one accepts it. */
  lemma FailureEvents(s: Store, ev: ProviderEvent, now: int, w: Weather)
    requires Arrives(s, ev, w) && ev.event in {"call.failed", "message.failed"}
    ensures
      var r := s.rows[KeyOf(ev)];
      var reason := if ev.detail != "" then ev.detail else r.endReason;
      if r.status.Pending? || r.status.Active? || r.status.Wrapup?
      then Leaves(s, ev, now, w, r.(status := Failed, endedAt := Some(now), endReason := reason))
      else if r.status.Failed? then Leaves(s, ev, now, w, r)
      else Refused(s, ev, now, w)
  {
  }

  // ---- the invariant ----

  ghost predicate HasReached(s: Store, e: Established) {
    e.key in s.rows && Follows(e.to, s.rows[e.key].status)
  }

  /** The status an event log leaves an interaction in, if its events fit
      together: each starts where the one before it ended. */
  ghost function Replay(log: seq<Moved>, key: Key): Option<Status>
    decreases |log|
  {
    if log == [] then Some(Pending)
    else
      var was, e := Replay(log[..|log| - 1], key), log[|log| - 1];
      if e.key != key then was
      else if was == Some(e.from) then Some(e.to)
      else None
  }

  ghost function MovesOf(log: seq<Moved>, key: Key): nat
    decreases |log|
  {
    if log == [] then 0
    else MovesOf(log[..|log| - 1], key) + if log[|log| - 1].key == key then 1 else 0
  }

  ghost predicate EnteredActive(log: seq<Moved>, key: Key) {
    exists e :: e in log && e.key == key && e.to.Active?
  }

  /** What an event of its log says about a row: the answer is the move to active,
      the end is the move to a terminal status, with its time and reason. */
  predicate Told(r: Rec, e: Moved) {
    && (e.to.Active? ==> r.answeredAt == Some(e.at))
    && (Terminal(e.to) ==> r.status == e.to && r.endedAt == Some(e.at) && r.endReason == e.reason)
  }

  lemma {:induction false} NoMoves(log: seq<Moved>, key: Key)
    requires MovesOf(log, key) == 0
    ensures forall e | e in log :: e.key != key
    decreases |log|
  {
    if log != [] {
      NoMoves(log[..|log| - 1], key);
      assert log == log[..|log| - 1] + [log[|log| - 1]];
    }
  }

  ghost predicate RowAgrees(s: Store, key: Key) {
    if key in s.rows then
      var r := s.rows[key];
      && Replay(s.outbox, key) == Some(r.status)
      && MovesOf(s.outbox, key) <= Rank(r.status)
      && (r.endedAt.Some? <==> Terminal(r.status))
      && (r.endReason != "" ==> Terminal(r.status))
      && (r.answeredAt.Some? <==> EnteredActive(s.outbox, key))
    else
      MovesOf(s.outbox, key) == 0 && Replay(s.outbox, key) == Some(Pending) && !EnteredActive(s.outbox, key)
  }

  ghost predicate RowTold(s: Store, key: Key) {
    key in s.rows ==> forall e | e in s.outbox && e.key == key :: Told(s.rows[key], e)
  }

  ghost predicate Inv(s: State) {
    && (forall e | e in s.established :: HasReached(s.store, e))
    && (forall key :: RowAgrees(s.store, key))
    && (forall key :: RowTold(s.store, key))
    && (forall k | k in s.calls :: Target(s.calls[k].event).Some?)
    && (forall e | e in s.store.outbox :: e.completes <==> e.to.Completed?)
  }

  lemma TransitionAgrees(s: Store, key: Key, to: Status, reason: string, now: int, other: Key)
    requires RowAgrees(s, key) && RowAgrees(s, other)
    ensures RowAgrees(Transitioned(s, key, to, reason, now), other)
  {
    if Legal(s, key, to) {
      var t := Transitioned(s, key, to, reason, now);
      var e := t.outbox[|s.outbox|];
      assert t.outbox[..|s.outbox|] == s.outbox;
      RankRises(s.rows[key].status, to);
      assert forall x :: x in t.outbox <==> x in s.outbox || x == e;
      assert EnteredActive(t.outbox, other) <==> EnteredActive(s.outbox, other) || (e.key == other && to.Active?);
    }
  }

  lemma TransitionTold(s: Store, key: Key, to: Status, reason: string, now: int, other: Key)
    requires RowAgrees(s, key) && RowTold(s, key) && RowTold(s, other)
    ensures RowTold(Transitioned(s, key, to, reason, now), other)
  {
    if Legal(s, key, to) && other == key && to.Active? { NoMoves(s.outbox, key); }
  }

  lemma TransitionKeepsReached(s: Store, key: Key, to: Status, reason: string, now: int, e: Established)
    requires HasReached(s, e)
    ensures HasReached(Transitioned(s, key, to, reason, now), e)
  {
    if Legal(s, key, to) && e.key == key { FollowsMore(e.to, s.rows[key].status, to); }
  }

  lemma TransitionKeepsInv(s: State, key: Key, to: Status, reason: string, now: int, t: State)
    requires Inv(s)
    requires t.store == Transitioned(s.store, key, to, reason, now)
    requires t.established == s.established
    requires forall k | k in t.calls :: Target(t.calls[k].event).Some?
    ensures Inv(t)
  {
    forall e | e in t.established ensures HasReached(t.store, e) {
      TransitionKeepsReached(s.store, key, to, reason, now, e);
    }
    forall other ensures RowAgrees(t.store, other) {
      TransitionAgrees(s.store, key, to, reason, now, other);
    }
    forall other ensures RowTold(t.store, other) {
      assert RowAgrees(s.store, key) && RowTold(s.store, key) && RowTold(s.store, other);
      TransitionTold(s.store, key, to, reason, now, other);
    }
  }

  lemma FinishKeepsInv(s: State, call: nat, now: int, db: Db)
    requires Inv(s) && call in s.calls && Target(s.calls[call].event).Some?
    ensures Inv(Finished(s, call, now, db))
  {
    var ev := s.calls[call];
    var to := Target(ev.event).value;
    var t := Finished(s, call, now, db);
    if !db.Down? && Legal(s.store, KeyOf(ev), to) {
      TransitionKeepsInv(s, KeyOf(ev), to, ev.detail, now, t.(established := s.established));
      assert HasReached(t.store, Established(KeyOf(ev), to));
    }
  }

  lemma CreateKeepsInv(s: State, key: Key)
    requires Inv(s)
    ensures Inv(s.(store := Created(s.store, key)))
  {
    var t := s.(store := Created(s.store, key));
    forall e | e in t.established ensures HasReached(t.store, e) {
      assert HasReached(s.store, e);
    }
    forall other ensures RowAgrees(t.store, other) {
      assert RowAgrees(s.store, other);
    }
    forall other ensures RowTold(t.store, other) {
      assert RowAgrees(s.store, other) && RowTold(s.store, other);
      if other == key && key !in s.store.rows { NoMoves(s.store.outbox, key); }
    }
  }

  lemma StepKeepsInv(s: State, a: Action)
    requires Inv(s) && Enabled(s, a)
    ensures Inv(Apply(s, a))
  {
    match a {
      case Create(key) => CreateKeepsInv(s, key);
      case Move(key, to, reason, now, db) =>
        if !db.Down? { TransitionKeepsInv(s, key, to, reason, now, Apply(s, a)); }
      case Begin(call, ev, up) =>
        assert Follows(Pending, Pending);
        if Complaint(ev).None? && NoOp(s.store, ev) {
          assert HasReached(s.store, Established(KeyOf(ev), Target(ev.event).value));
        }
      case Finish(call, now, db) => FinishKeepsInv(s, call, now, db);
      case Abandon(_) =>
    }
  }

  lemma {:induction false} RunKeepsInv(s: State, acts: seq<Action>, t: State)
    requires Inv(s) && Reaches(s, acts, t)
    ensures Inv(t)
    decreases |acts|
  {
    if acts != [] {
      StepKeepsInv(s, acts[0]);
      RunKeepsInv(Apply(s, acts[0]), acts[1..], t);
    }
  }

  // ---- the promises ----

  /** The events committed for an interaction, folded from pending, give exactly
      its stored status, and there are at most three of them, however callers and
      processors interleave. */
  lemma LogAgreesWithRow(acts: seq<Action>, t: State, key: Key)
    requires Reaches(EMPTY, acts, t) && key in t.store.rows
    ensures Replay(t.store.outbox, key) == Some(t.store.rows[key].status)
    ensures MovesOf(t.store.outbox, key) <= 3
    ensures forall e | e in t.store.outbox :: e.completes <==> e.to.Completed?
  {
    RunKeepsInv(EMPTY, acts, t);
    assert RowAgrees(t.store, key);
  }

  /** An interaction carries an end time exactly when it has ended, and an answer
      time exactly when some event made it active; each is the time of that one event,
      and the end reason is the reason of the event that ended it. */
  lemma TimesMatchHistory(acts: seq<Action>, t: State, key: Key)
    requires Reaches(EMPTY, acts, t) && key in t.store.rows
    ensures t.store.rows[key].endedAt.Some? <==> Terminal(t.store.rows[key].status)
    ensures t.store.rows[key].answeredAt.Some? <==> EnteredActive(t.store.outbox, key)
    ensures t.store.rows[key].endReason != "" ==> Terminal(t.store.rows[key].status)
    ensures forall e | e in t.store.outbox && e.key == key :: Told(t.store.rows[key], e)
  {
    RunKeepsInv(EMPTY, acts, t);
    assert RowAgrees(t.store, key) && RowTold(t.store, key);
  }

  lemma {:induction false} RunKeepsEstablished(s: State, acts: seq<Action>, t: State, e: Established)
    requires Reaches(s, acts, t) && e in s.established
    ensures e in t.established
    decreases |acts|
  {
    if acts != [] {
      assert e in Apply(s, acts[0]).established;
      RunKeepsEstablished(Apply(s, acts[0]), acts[1..], t, e);
    }
  }

  /** An event that once applied, or found its status in place, never changes the
      interaction again, at whatever later point of the run it is redelivered; and
      the redelivery reports success exactly while the status still stands. */
  lemma ReplayIsHarmless(acts: seq<Action>, s: State, later: seq<Action>, t: State, ev: ProviderEvent, now: int, w: Weather)
    requires Reaches(EMPTY, acts, s) && Reaches(s, later, t) && Complaint(ev).None?
    requires Established(KeyOf(ev), Target(ev.event).value) in s.established
    ensures Processed(t.store, ev, now, w) == t.store
    ensures ProcessError(t.store, ev, w).None? <==> (w.readUp && NoOp(t.store, ev))
  {
    var e := Established(KeyOf(ev), Target(ev.event).value);
    RunKeepsInv(EMPTY, acts, s);
    RunKeepsInv(s, later, t);
    RunKeepsEstablished(s, later, t, e);
    assert HasReached(t.store, e);
    NoReturn(e.to, t.store.rows[e.key].status);
  }

  /** The same when the redelivery had already read an older status and another
      delivery got in between: its transition is refused. */
  lemma LateFinishIsHarmless(acts: seq<Action>, s: State, call: nat, now: int, db: Db)
    requires Reaches(EMPTY, acts, s) && call in s.calls && Target(s.calls[call].event).Some?
    requires Established(KeyOf(s.calls[call]), Target(s.calls[call].event).value) in s.established
    ensures Finished(s, call, now, db).store == s.store
  {
    var e := Established(KeyOf(s.calls[call]), Target(s.calls[call].event).value);
    RunKeepsInv(EMPTY, acts, s);
    assert HasReached(s.store, e);
    NoReturn(e.to, s.store.rows[e.key].status);
  }

  /** Redelivery is not idempotent in its answer: once the interaction has moved
      past the status an event established, the same event is refused for good. */
  lemma ReplayAfterMoveIsRefused(acts: seq<Action>, s: State, later: seq<Action>, t: State, ev: ProviderEvent, w: Weather)
    requires Reaches(EMPTY, acts, s) && Reaches(s, later, t) && Complaint(ev).None?
    requires Established(KeyOf(ev), Target(ev.event).value) in s.established
    requires w.readUp && !w.db.Down? && !NoOp(t.store, ev)
    ensures ProcessError(t.store, ev, w) == Some(InvalidTransition)
  {
    var e := Established(KeyOf(ev), Target(ev.event).value);
    RunKeepsInv(EMPTY, acts, s);
    RunKeepsInv(s, later, t);
    RunKeepsEstablished(s, later, t, e);
    assert HasReached(t.store, e);
    NoReturn(e.to, t.store.rows[e.key].status);
  }
}
