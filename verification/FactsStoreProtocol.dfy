/** The batched facts store as a step system: any number of Handle calls, one
    flusher goroutine and one Close, interleaved at every channel operation.

    A step is one atomic action of one goroutine: a channel send or receive, a
    select that picks one ready case, or one critical section. `Enabled` says
    which steps the scheduler may pick and `Apply` what they do, so a run is a
    list of actions. */
module FactsStoreProtocol {
  import opened Facts

  datatype Table = Interactions | Usage

  function TableOf(r: Row): Table {
    if r.InteractionRow? then Interactions else Usage
  }

  /** Rows held per fact table, oldest first. */
  datatype Rows = Rows(inter: seq<Row>, usage: seq<Row>) {
    function Of(t: Table): seq<Row> {
      if t.Interactions? then inter else usage
    }

    function With(t: Table, q: seq<Row>): Rows {
      if t.Interactions? then this.(inter := q) else this.(usage := q)
    }

    function Push(r: Row): Rows {
      With(TableOf(r), Of(TableOf(r)) + [r])
    }

    function Size(): nat {
      |inter| + |usage|
    }
  }

  const NONE := Rows([], [])

  datatype Refusal = StoreClosed | Cancelled | Backpressure

  /** A Handle call: past the closed check, then possibly blocked on a full
      buffer, then returned. `Accepted` is the nil return. */
  datatype Phase = Trying | Waiting | Accepted | Refused(why: Refusal)

  datatype Call = Call(row: Row, phase: Phase)

  /** Where the flusher goroutine stands. The requeue states carry the failed
      rows not yet offered back; the head of `todo` is the row being offered. */
  datatype Flusher =
    | Selecting
    | Draining(final: bool)
    | Sending(final: bool)
    | Requeuing(todo: seq<Row>)
    | Shedding(todo: seq<Row>)
    | Retrying(todo: seq<Row>)
    | Disconnecting
    | Exited

  /** Where Close stands: not called, closed flag set, stopping closed, stop
      closed (all producers gone), returned with or without an error. */
  datatype Closer = NotCalled | Marked | Releasing | Stopped | Returned(failed: bool)

  /** What became of the rows that left the store, what requeue returned in
      total, and how often it evicted the head of a buffer. */
  datatype History = History(
    delivered: seq<Row>,
    shed: seq<Row>,
    lost: seq<Row>,
    reported: nat,
    headSheds: nat)

  datatype State = State(
    cap: nat,
    calls: seq<Call>,
    buffers: Rows,
    stash: Rows,
    flusher: Flusher,
    dialed: bool,
    finalErr: bool,
    closer: Closer,
    log: History)

  datatype ProducerStep =
    | Enter(row: Row)
    | TrySend(call: nat)
    | SendWaiting(call: nat)
    | Cancel(call: nat)
    | TimeOut(call: nat)
    | SeeStopping(call: nat)

  datatype FlusherStep =
    | Take(table: Table)
    | DrainEmpty
    | Tick
    | SeeStop
    | Send(dialOk: bool, interOk: bool, usageOk: bool)
    | Offer
    | ShedHead
    | Reoffer
    | Disconnect(closeOk: bool)

  datatype CloserStep = MarkClosed | ReleaseWaiters | AwaitProducers | ReturnClose

  datatype Action = Producing(p: ProducerStep) | Flushing(f: FlusherStep) | Closing(c: CloserStep)

  function Init(cap: nat): State {
    State(cap, [], NONE, NONE, Selecting, false, false, NotCalled,
          History([], [], [], 0, 0))
  }

  predicate InFlight(c: Call) {
    c.phase.Trying? || c.phase.Waiting?
  }

  predicate Settled(calls: seq<Call>) {
    forall i :: 0 <= i < |calls| ==> !InFlight(calls[i])
  }

  predicate HasRoom(s: State, r: Row) {
    |s.buffers.Of(TableOf(r))| < s.cap
  }

  function Push(s: State, r: Row): State {
    s.(buffers := s.buffers.Push(r))
  }

  predicate PhaseIs(s: State, i: nat, p: Phase) {
    i < |s.calls| && s.calls[i].phase == p
  }

  function Settle(s: State, i: nat, p: Phase): State
    requires i < |s.calls|
  {
    s.(calls := s.calls[i := s.calls[i].(phase := p)])
  }

  predicate StoppingClosed(c: Closer) {
    c.Releasing? || c.Stopped? || c.Returned?
  }

  predicate StopClosed(c: Closer) {
    c.Stopped? || c.Returned?
  }

  // ---- producers ----

  predicate ProducerEnabled(s: State, p: ProducerStep) {
    match p
    case Enter(_) => true
    case TrySend(i) => PhaseIs(s, i, Trying)
    case SendWaiting(i) => PhaseIs(s, i, Waiting) && HasRoom(s, s.calls[i].row)
    case Cancel(i) => PhaseIs(s, i, Waiting)
    case TimeOut(i) => PhaseIs(s, i, Waiting)
    case SeeStopping(i) => PhaseIs(s, i, Waiting) && StoppingClosed(s.closer)
  }

  function Produce(s: State, p: ProducerStep): State
    requires ProducerEnabled(s, p)
  {
    match p
    case Enter(row) =>
      s.(calls := s.calls + [Call(row, if s.closer.NotCalled? then Trying else Refused(StoreClosed))])
    case TrySend(i) =>
      if HasRoom(s, s.calls[i].row) then Push(Settle(s, i, Accepted), s.calls[i].row)
      else Settle(s, i, Waiting)
    case SendWaiting(i) => Push(Settle(s, i, Accepted), s.calls[i].row)
    case Cancel(i) => Settle(s, i, Refused(Cancelled))
    case TimeOut(i) => Settle(s, i, Refused(Backpressure))
    case SeeStopping(i) => Settle(s, i, Refused(StoreClosed))
  }

  // ---- the flusher ----

  predicate FlusherEnabled(s: State, f: FlusherStep) {
    match f
    case Take(t) => (s.flusher.Selecting? || s.flusher.Draining?) && s.buffers.Of(t) != []
    case DrainEmpty => s.flusher.Draining? && s.buffers == NONE
    case Tick => s.flusher.Selecting?
    case SeeStop => s.flusher.Selecting? && StopClosed(s.closer)
    case Send(_, _, _) => s.flusher.Sending?
    case Offer => s.flusher.Requeuing? && s.flusher.todo != []
    case ShedHead => s.flusher.Shedding? && s.flusher.todo != []
    case Reoffer => s.flusher.Retrying? && s.flusher.todo != []
    case Disconnect(_) => s.flusher.Disconnecting?
  }

  function Flush(s: State, f: FlusherStep): State
    requires FlusherEnabled(s, f)
  {
    match f
    case Take(t) => TakeRow(s, t)
    case DrainEmpty => EndDrain(s)
    case Tick => s.(flusher := if s.stash.Size() == 0 then Selecting else Sending(false))
    case SeeStop => s.(flusher := Draining(true))
    case Send(dialOk, interOk, usageOk) => SendAll(s, dialOk, interOk, usageOk)
    case Offer => OfferRow(s)
    case ShedHead => EvictHead(s)
    case Reoffer => OfferAgain(s)
    case Disconnect(closeOk) =>
      s.(flusher := Exited, finalErr := s.finalErr || (s.dialed && !closeOk), dialed := false)
  }

  function TakeRow(s: State, t: Table): State
    requires s.buffers.Of(t) != []
  {
    var q := s.buffers.Of(t);
    s.(buffers := s.buffers.With(t, q[1..]), stash := s.stash.With(t, s.stash.Of(t) + [q[0]]),
       flusher := if s.flusher.Selecting? then Draining(false) else s.flusher)
  }

  /** Both buffers are empty: a shutdown drain flushes whatever is stashed, an
      ordinary one flushes only a full batch. */
  function EndDrain(s: State): State
    requires s.flusher.Draining?
  {
    if s.flusher.final then
      s.(flusher := if s.stash.Size() == 0 then Disconnecting else Sending(true))
    else
      s.(flusher := if s.stash.Size() >= s.cap then Sending(false) else Selecting)
  }

  /** The batch of one table as the server leaves it. */
  function Unsent(ok: bool, batch: seq<Row>): seq<Row> {
    if ok then [] else batch
  }

  /** One flush: a batch per fact table over a connection dialed on demand. A
      failed dial fails both batches; a failed batch delivers none of its rows.
      Failed rows are requeued, or on the final flush counted as lost. */
  function SendAll(s: State, dialOk: bool, interOk: bool, usageOk: bool): State
    requires s.flusher.Sending?
  {
    var dialed := s.dialed || dialOk;
    var left := Unsent(dialed && interOk, s.stash.inter) + Unsent(dialed && usageOk, s.stash.usage);
    var sent := Unsent(!(dialed && interOk), s.stash.inter) + Unsent(!(dialed && usageOk), s.stash.usage);
    var log := s.log.(delivered := s.log.delivered + sent);
    var t := s.(dialed := dialed, stash := NONE, log := log);
    if left == [] then t.(flusher := if s.flusher.final then Disconnecting else Selecting)
    else if s.flusher.final then
      t.(flusher := Disconnecting, log := log.(lost := log.lost + left), finalErr := true)
    else t.(flusher := Requeuing(left))
  }

  /** The requeue loop moves to its next row, or the flusher back to select. */
  function NextOffer(todo: seq<Row>): Flusher
    requires todo != []
  {
    if |todo| == 1 then Selecting else Requeuing(todo[1..])
  }

  function OfferRow(s: State): State
    requires s.flusher.Requeuing? && s.flusher.todo != []
  {
    var todo := s.flusher.todo;
    if HasRoom(s, todo[0]) then Push(s, todo[0]).(flusher := NextOffer(todo))
    else s.(flusher := Shedding(todo))
  }

  function EvictHead(s: State): State
    requires s.flusher.Shedding? && s.flusher.todo != []
  {
    var todo := s.flusher.todo;
    var t := TableOf(todo[0]);
    var q := s.buffers.Of(t);
    if q == [] then s.(flusher := Retrying(todo))
    else s.(buffers := s.buffers.With(t, q[1..]), flusher := Retrying(todo),
            log := s.log.(shed := s.log.shed + [q[0]], headSheds := s.log.headSheds + 1))
  }

  function OfferAgain(s: State): State
    requires s.flusher.Retrying? && s.flusher.todo != []
  {
    var todo := s.flusher.todo;
    if HasRoom(s, todo[0]) then Push(s, todo[0]).(flusher := NextOffer(todo))
    else s.(flusher := NextOffer(todo),
            log := s.log.(shed := s.log.shed + [todo[0]], reported := s.log.reported + 1))
  }

  // ---- Close ----

  predicate CloserEnabled(s: State, c: CloserStep) {
    match c
    case MarkClosed => s.closer.NotCalled?
    case ReleaseWaiters => s.closer.Marked?
    case AwaitProducers => s.closer.Releasing? && Settled(s.calls)
    case ReturnClose => s.closer.Stopped? && s.flusher.Exited?
  }

  function Shut(s: State, c: CloserStep): State
    requires CloserEnabled(s, c)
  {
    match c
    case MarkClosed => s.(closer := Marked)
    case ReleaseWaiters => s.(closer := Releasing)
    case AwaitProducers => s.(closer := Stopped)
    case ReturnClose => s.(closer := Returned(s.finalErr))
  }

  // ---- runs ----

  predicate Enabled(s: State, a: Action) {
    match a
    case Producing(p) => ProducerEnabled(s, p)
    case Flushing(f) => FlusherEnabled(s, f)
    case Closing(c) => CloserEnabled(s, c)
  }

  function Apply(s: State, a: Action): State
    requires Enabled(s, a)
  {
    match a
    case Producing(p) => Produce(s, p)
    case Flushing(f) => Flush(s, f)
    case Closing(c) => Shut(s, c)
  }

  /** `acts` is a run from s that ends in t. */
  ghost predicate Reaches(s: State, acts: seq<Action>, t: State)
    decreases |acts|
  {
    if acts == [] then s == t
    else Enabled(s, acts[0]) && Reaches(Apply(s, acts[0]), acts[1..], t)
  }

  lemma {:induction false} ReachesConcat(s: State, a: seq<Action>, t: State, b: seq<Action>, u: State)
    requires Reaches(s, a, t) && Reaches(t, b, u)
    ensures Reaches(s, a + b, u)
    decreases |a|
  {
    if a == [] {
      assert a + b == b;
    } else {
      assert (a + b)[0] == a[0] && (a + b)[1..] == a[1..] + b;
      ReachesConcat(Apply(s, a[0]), a[1..], t, b, u);
    }
  }

  lemma ReachesOne(s: State, a: Action)
    requires Enabled(s, a)
    ensures Reaches(s, [a], Apply(s, a))
  {
    assert [a][1..] == [];
    assert Reaches(Apply(s, a), [], Apply(s, a));
  }
}
