/** The transactional outbox: rows, the three dispatcher statements, and any
    number of dispatchers that claim, publish, acknowledge, retry or crash. */
module Outbox {
  import opened Facts
  import opened Wrappers

  datatype Status = Pending | Publishing | Published | Failed

  /** One outbox_events row. `payload` is the envelope the worker rebuilds from
      the row, or None when the payload does not decode. */
  datatype OutboxRow = OutboxRow(
    payload: Option<Envelope>,
    occurredAt: int,
    status: Status,
    token: string,
    attempts: nat,
    leaseExpires: Option<int>)

  type Table = map<string, OutboxRow>

  const RETRY_LEASE: int := 30

  function NewRow(payload: Option<Envelope>, occurredAt: int): OutboxRow {
    OutboxRow(payload, occurredAt, Pending, "", 0, None)
  }

  // ---- the dispatcher's statements ----

  /** The WHERE clause of claim. */
  predicate Claimable(r: OutboxRow, now: int) {
    r.status.Pending? || (r.status.Publishing? && r.leaseExpires.Some? && r.leaseExpires.value < now)
  }

  function ClaimRow(r: OutboxRow, token: string): OutboxRow {
    r.(status := Publishing, token := token, attempts := r.attempts + 1)
  }

  function ClaimRows(t: Table, ids: seq<string>, token: string): Table {
    map id | id in t :: if id in ids then ClaimRow(t[id], token) else t[id]
  }

  function AckRow(r: OutboxRow, token: string): OutboxRow {
    if r.token == token then r.(status := Published, token := "") else r
  }

  function AckRows(t: Table, token: string): Table {
    map id | id in t :: AckRow(t[id], token)
  }

  function ReleaseRow(r: OutboxRow, token: string, maxAttempts: nat, now: int): OutboxRow {
    if r.token == token then
      r.(status := if r.attempts >= maxAttempts then Failed else Pending,
         token := "", leaseExpires := Some(now + RETRY_LEASE))
    else r
  }

  function ReleaseRows(t: Table, token: string, maxAttempts: nat, now: int): Table {
    map id | id in t :: ReleaseRow(t[id], token, maxAttempts, now)
  }

  // ---- many dispatchers ----

  /** A dispatcher inside Tick: publishing row `next` of its batch, or about to
      release the batch because a publish failed. */
  datatype Worker = Idle | Leased(token: string, batch: seq<string>, next: nat) | Failing(token: string)

  /** `bus` lists what the bus accepted, in order; `claims` every batch ever
      leased, by token. */
  datatype State = State(
    rows: Table,
    workers: seq<Worker>,
    bus: seq<Envelope>,
    claims: map<string, seq<string>>)

  datatype Config = Config(batchSize: nat, maxAttempts: nat)

  datatype Action =
    | Insert(id: string, payload: Option<Envelope>, occurredAt: int)
    | Join
    | Claim(w: nat, token: string, ids: seq<string>)
    | Publish(w: nat)
    | PublishError(w: nat, reached: bool)
    | Ack(w: nat)
    | Release(w: nat, now: int)
    | Crash(w: nat)

  predicate Working(s: State, w: nat) {
    w < |s.workers| && s.workers[w].Leased?
  }

  /** The row a worker is about to publish. */
  predicate HasNext(s: State, w: nat) {
    Working(s, w) && s.workers[w].next < |s.workers[w].batch| && s.workers[w].batch[s.workers[w].next] in s.rows
  }

  function NextPayload(s: State, w: nat): Option<Envelope>
    requires HasNext(s, w)
  {
    s.rows[s.workers[w].batch[s.workers[w].next]].payload
  }

  /** Claims are not exclusive: the select takes no row locks, so a concurrent
      claim may take over any row another dispatcher is publishing. */
  predicate Enabled(c: Config, s: State, a: Action) {
    match a
    case Insert(id, payload, _) =>
      id !in s.rows && (payload.Some? ==> payload.value.id == id) && c.maxAttempts > 0
    case Join => true
    case Claim(w, token, ids) =>
      && w < |s.workers| && s.workers[w].Idle?
      && token != "" && token !in s.claims && |ids| <= c.batchSize
      && (forall id | id in ids :: id in s.rows && (s.rows[id].status.Pending? || s.rows[id].status.Publishing?))
    case Publish(w) => HasNext(s, w)
    case PublishError(w, _) => HasNext(s, w) && NextPayload(s, w).Some?
    case Ack(w) => Working(s, w) && s.workers[w].next == |s.workers[w].batch|
    case Release(w, _) => w < |s.workers| && s.workers[w].Failing?
    case Crash(w) => w < |s.workers|
  }

  function Delivered(p: Option<Envelope>): seq<Envelope> {
    if p.Some? then [p.value] else []
  }

  function Apply(c: Config, s: State, a: Action): State
    requires Enabled(c, s, a)
  {
    match a
    case Insert(id, payload, at) => s.(rows := s.rows[id := NewRow(payload, at)])
    case Join => s.(workers := s.workers + [Idle])
    case Claim(w, token, ids) =>
      s.(rows := ClaimRows(s.rows, ids, token), claims := s.claims[token := ids],
         workers := s.workers[w := if ids == [] then Idle else Leased(token, ids, 0)])
    case Publish(w) =>
      s.(bus := s.bus + Delivered(NextPayload(s, w)),
         workers := s.workers[w := s.workers[w].(next := s.workers[w].next + 1)])
    case PublishError(w, reached) =>
      s.(bus := s.bus + (if reached then Delivered(NextPayload(s, w)) else []),
         workers := s.workers[w := Failing(s.workers[w].token)])
    case Ack(w) =>
      s.(rows := AckRows(s.rows, s.workers[w].token), workers := s.workers[w := Idle])
    case Release(w, now) =>
      s.(rows := ReleaseRows(s.rows, s.workers[w].token, c.maxAttempts, now), workers := s.workers[w := Idle])
    case Crash(w) => s.(workers := s.workers[w := Idle])
  }

  const EMPTY := State(map[], [], [], map[])

  ghost predicate Reaches(c: Config, s: State, acts: seq<Action>, t: State)
    decreases |acts|
  {
    if acts == [] then s == t
    else Enabled(c, s, acts[0]) && Reaches(c, Apply(c, s, acts[0]), acts[1..], t)
  }

  // ---- the invariant ----

  predicate RowOk(c: Config, r: OutboxRow) {
    && (r.token != "" <==> r.status.Publishing?)
    && (r.status.Pending? ==> r.attempts < c.maxAttempts)
    && (r.status.Failed? ==> r.attempts >= c.maxAttempts)
  }

  predicate OnBus(s: State, id: string) {
    id in s.rows && (s.rows[id].payload.Some? ==> s.rows[id].payload.value in s.bus)
  }

  ghost predicate RowsOk(c: Config, s: State) {
    forall id | id in s.rows :: RowOk(c, s.rows[id]) && (s.rows[id].payload.Some? ==> s.rows[id].payload.value.id == id)
  }

  /** A lease token names the claim it came from. */
  ghost predicate TokensOk(s: State) {
    && (forall id | id in s.rows && s.rows[id].token != "" ::
          s.rows[id].token in s.claims && id in s.claims[s.rows[id].token])
    && "" !in s.claims
  }

  ghost predicate WorkersOk(s: State) {
    forall w | 0 <= w < |s.workers| ::
      match s.workers[w]
      case Idle => true
      case Failing(token) => token in s.claims
      case Leased(token, batch, next) =>
        && token in s.claims && s.claims[token] == batch && next <= |batch|
        && (forall id | id in batch :: id in s.rows)
        && (forall j | 0 <= j < next :: OnBus(s, batch[j]))
  }

  /** A row is published only after its envelope reached the bus. */
  ghost predicate PublishedOnBus(s: State) {
    forall id | id in s.rows && s.rows[id].status.Published? :: OnBus(s, id)
  }

  /** The bus carries outbox rows and nothing else. */
  ghost predicate BusOk(s: State) {
    forall e | e in s.bus :: e.id in s.rows && s.rows[e.id].payload == Some(e)
  }

  ghost predicate Inv(c: Config, s: State) {
    RowsOk(c, s) && TokensOk(s) && WorkersOk(s) && PublishedOnBus(s) && BusOk(s)
  }
}
