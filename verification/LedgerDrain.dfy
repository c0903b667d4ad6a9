/** The carrier-event ledger and the worker that drains it: rows are tried oldest
    first, a failing row is retried on later ticks, and after enough failures it
    is passed over. */
module LedgerDrain {
  import opened Counting
  import I = Interactions
  import opened Wrappers

  /** A ledger row; an undecodable payload is None. The list of rows is in drain
      order, received first. */
  datatype Row = Row(provider: string, eventId: string, payload: Option<I.ProviderEvent>, processed: bool)

  datatype RowKey = RowKey(provider: string, eventId: string)

  function KeyOfRow(r: Row): RowKey {
    RowKey(r.provider, r.eventId)
  }

  datatype Config = Config(batchSize: nat, maxAttempts: nat)

  predicate ConfigOk(c: Config) {
    c.batchSize >= 1 && c.maxAttempts >= 1
  }

  /** How the world answers while one row is handled. */
  datatype Luck = Luck(now: int, weather: I.Weather, markOk: bool)

  /** `failures` and `successes` list every Process call by its outcome. */
  datatype State = State(
    rows: seq<Row>,
    attempts: map<RowKey, nat>,
    store: I.Store,
    failures: seq<RowKey>,
    successes: seq<RowKey>)

  function AttemptsOf(attempts: map<RowKey, nat>, k: RowKey): nat {
    if k in attempts then attempts[k] else 0
  }

  /** persistEvent: one row per provider and derived id. */
  predicate Known(rows: seq<Row>, k: RowKey) {
    exists i :: 0 <= i < |rows| && KeyOfRow(rows[i]) == k
  }

  function Persisted(s: State, provider: string, eventId: string, payload: Option<I.ProviderEvent>): State {
    if Known(s.rows, RowKey(provider, eventId)) then s
    else s.(rows := s.rows + [Row(provider, eventId, payload, false)])
  }

  /** MarkProcessed goes by event id alone. */
  function Marked(rows: seq<Row>, eventId: string): (marked: seq<Row>)
    ensures |marked| == |rows|
    ensures forall i | 0 <= i < |rows| ::
              marked[i] == if rows[i].eventId == eventId then rows[i].(processed := true) else rows[i]
  {
    seq(|rows|, i requires 0 <= i < |rows| => if rows[i].eventId == eventId then rows[i].(processed := true) else rows[i])
  }

  /** The rows of one drain query: the first n unprocessed. */
  function FirstUnprocessed(rows: seq<Row>, n: nat): seq<Row> {
    if rows == [] || n == 0 then []
    else if rows[0].processed then FirstUnprocessed(rows[1..], n)
    else [rows[0]] + FirstUnprocessed(rows[1..], n - 1)
  }

  function ApplyError(store: I.Store, r: Row, luck: Luck): Option<I.Error> {
    if r.payload.None? then Some(I.Malformed) else I.ProcessError(store, r.payload.value, luck.weather)
  }

  function AppliedTo(store: I.Store, r: Row, luck: Luck): I.Store {
    if r.payload.None? then store else I.Processed(store, r.payload.value, luck.now, luck.weather)
  }

  predicate Live(c: Config, s: State, r: Row) {
    !r.processed && AttemptsOf(s.attempts, KeyOfRow(r)) < c.maxAttempts
  }

  /** One row of the batch, as queried before the loop began. */
  function Handled(c: Config, s: State, r: Row, luck: Luck): State {
    var k := KeyOfRow(r);
    if AttemptsOf(s.attempts, k) >= c.maxAttempts then s
    else
      var t := s.(store := AppliedTo(s.store, r, luck));
      if ApplyError(s.store, r, luck).Some? then
        t.(attempts := s.attempts[k := AttemptsOf(s.attempts, k) + 1], failures := s.failures + [k])
      else
        t.(rows := if luck.markOk then Marked(s.rows, r.eventId) else s.rows,
           successes := s.successes + [k])
  }

  function HandledAll(c: Config, s: State, batch: seq<Row>, luck: seq<Luck>): State
    requires |luck| >= |batch|
    decreases |batch|
  {
    if batch == [] then s
    else
      var n := |batch| - 1;
      Handled(c, HandledAll(c, s, batch[..n], luck), batch[n], luck[n])
  }

  /** One tick, with the world's answers row by row. */
  function Ticked(c: Config, s: State, luck: seq<Luck>): State
    requires |luck| >= c.batchSize
  {
    BatchLength(s.rows, c.batchSize);
    HandledAll(c, s, FirstUnprocessed(s.rows, c.batchSize), luck)
  }

  lemma {:induction false} BatchLength(rows: seq<Row>, n: nat)
    ensures |FirstUnprocessed(rows, n)| <= n
    decreases |rows|
  {
    if rows != [] && n > 0 {
      BatchLength(rows[1..], n);
      BatchLength(rows[1..], n - 1);
    }
  }

  // ---- the drain's own code ----

  class Gateway {
    var rows: seq<Row>

    constructor ()
      ensures rows == []
    {
      rows := [];
    }

    /** A replay inserts nothing and is reported as a duplicate. */
    method PersistEvent(provider: string, eventId: string, payload: Option<I.ProviderEvent>)
      returns (duplicate: bool)
      modifies this
      ensures duplicate == Known(old(rows), RowKey(provider, eventId))
      ensures rows == if duplicate then old(rows) else old(rows) + [Row(provider, eventId, payload, false)]
    {
      duplicate := Known(rows, RowKey(provider, eventId));
      if !duplicate { rows := rows + [Row(provider, eventId, payload, false)]; }
    }

    method MarkProcessed(eventId: string, ok: bool)
      modifies this
      ensures rows == if ok then Marked(old(rows), eventId) else old(rows)
    {
      if ok { rows := Marked(rows, eventId); }
    }
  }

  class EventConsumer {
    const config: Config
    const processor: I.Processor
    const marker: Gateway
    var attempts: map<RowKey, nat>
    ghost var failures: seq<RowKey>
    ghost var successes: seq<RowKey>

    /** The attempts kept in memory are the failures there were. */
    ghost predicate Valid()
      reads this
    {
      && ConfigOk(config)
      && (forall k :: AttemptsOf(attempts, k) == Count(failures, k))
      && (this as object) != (processor.interactions as object)
      && (this as object) != (marker as object)
      && (processor.interactions as object) != (marker as object)
    }

    ghost function Abs(): State
      reads this, marker, processor.interactions
    {
      State(marker.rows, attempts, processor.interactions.Abs(), failures, successes)
    }

    constructor (p: I.Processor, m: Gateway, batchSize: int, maxAttempts: int)
      requires (p.interactions as object) != (m as object)
      ensures Valid() && processor == p && marker == m
      ensures config == Config(if batchSize <= 0 then 100 else batchSize, if maxAttempts <= 0 then 10 else maxAttempts)
      ensures attempts == map[] && failures == [] && successes == []
    {
      config := Config(if batchSize <= 0 then 100 else batchSize, if maxAttempts <= 0 then 10 else maxAttempts);
      processor, marker := p, m;
      attempts, failures, successes := map[], [], [];
    }

    /** A row is passed over exactly when Process has failed for it maxAttempts
        times in this process. */
    method Skipped(provider: string, eventId: string) returns (skip: bool)
      requires Valid()
      ensures skip <==> Count(failures, RowKey(provider, eventId)) >= config.maxAttempts
    {
      var k := RowKey(provider, eventId);
      assert AttemptsOf(attempts, k) == Count(failures, k);
      return AttemptsOf(attempts, k) >= config.maxAttempts;
    }

    method RecordFailure(provider: string, eventId: string)
      requires Valid()
      modifies this
      ensures Valid()
      ensures
        var k := RowKey(provider, eventId);
        && attempts == old(attempts)[k := AttemptsOf(old(attempts), k) + 1]
        && failures == old(failures) + [k] && successes == old(successes)
    {
      var k := RowKey(provider, eventId);
      forall x ensures Count(failures + [k], x) == Count(failures, x) + if k == x then 1 else 0 {
        CountAdd(failures, k, x);
      }
      attempts := attempts[k := AttemptsOf(attempts, k) + 1];
      failures := failures + [k];
    }

    method ApplyRow(r: Row, luck: Luck) returns (err: Option<I.Error>)
      modifies processor.interactions
      ensures err == ApplyError(old(processor.interactions.Abs()), r, luck)
      ensures processor.interactions.Abs() == AppliedTo(old(processor.interactions.Abs()), r, luck)
    {
      if r.payload.None? { return Some(I.Malformed); }
      err := processor.Process(r.payload.value, luck.now, luck.weather);
    }

    method HandleRow(r: Row, luck: Luck) returns (applied: bool)
      requires Valid()
      modifies this, marker, processor.interactions
      ensures Valid()
      ensures Abs() == Handled(config, old(Abs()), r, luck)
      ensures applied == (old(AttemptsOf(attempts, KeyOfRow(r))) < config.maxAttempts
                          && ApplyError(old(processor.interactions.Abs()), r, luck).None?)
    {
      var skip := Skipped(r.provider, r.eventId);
      assert AttemptsOf(attempts, KeyOfRow(r)) == Count(failures, KeyOfRow(r));
      if skip { return false; }
      var err := ApplyRow(r, luck);
      if err.Some? {
        RecordFailure(r.provider, r.eventId);
        return false;
      }
      marker.MarkProcessed(r.eventId, luck.markOk);
      successes := successes + [KeyOfRow(r)];
      return true;
    }

    /** One tick: the batch is read first, then handled row by row. */
    method Tick(luck: seq<Luck>) returns (applied: nat)
      requires Valid() && |luck| >= config.batchSize
      modifies this, marker, processor.interactions
      ensures Valid()
      ensures Abs() == Ticked(config, old(Abs()), luck)
      ensures applied == |successes| - |old(successes)|
    {
      var batch := FirstUnprocessed(marker.rows, config.batchSize);
      BatchLength(marker.rows, config.batchSize);
      ghost var start := Abs();
      applied := 0;
      var i := 0;
      while i < |batch|
        invariant 0 <= i <= |batch| <= |luck| && Valid()
        invariant Abs() == HandledAll(config, start, batch[..i], luck)
        invariant applied == |successes| - |old(successes)|
      {
        assert batch[..i + 1][..i] == batch[..i];
        var ok := HandleRow(batch[i], luck[i]);
        if ok { applied := applied + 1; }
        i := i + 1;
      }
      assert batch[..i] == batch;
    }
  }

  // ---- what every run keeps ----

  ghost predicate Accounted(c: Config, s: State, k: RowKey) {
    AttemptsOf(s.attempts, k) == Count(s.failures, k) <= c.maxAttempts
  }

  ghost predicate Succeeded(s: State, eventId: string) {
    exists k :: k in s.successes && k.eventId == eventId
  }

  ghost predicate Inv(c: Config, s: State) {
    && (forall k :: Accounted(c, s, k))
    && (forall i | 0 <= i < |s.rows| && s.rows[i].processed :: Succeeded(s, s.rows[i].eventId))
    && (forall i, j | 0 <= i < j < |s.rows| :: KeyOfRow(s.rows[i]) != KeyOfRow(s.rows[j]))
  }

  lemma HandledKeepsInv(c: Config, s: State, r: Row, luck: Luck)
    requires ConfigOk(c) && Inv(c, s)
    ensures Inv(c, Handled(c, s, r, luck))
  {
    var t := Handled(c, s, r, luck);
    var key := KeyOfRow(r);
    forall k ensures Accounted(c, t, k) {
      assert Accounted(c, s, k);
      CountAdd(s.failures, key, k);
    }
    forall i | 0 <= i < |t.rows| && t.rows[i].processed ensures Succeeded(t, t.rows[i].eventId) {
      if s.rows[i].processed {
        var k :| k in s.successes && k.eventId == s.rows[i].eventId;
        assert k in t.successes;
      } else {
        assert key in t.successes;
      }
    }
  }

  lemma {:induction false} HandledAllKeepsInv(c: Config, s: State, batch: seq<Row>, luck: seq<Luck>)
    requires ConfigOk(c) && Inv(c, s) && |luck| >= |batch|
    ensures Inv(c, HandledAll(c, s, batch, luck))
    decreases |batch|
  {
    if batch != [] {
      var n := |batch| - 1;
      HandledAllKeepsInv(c, s, batch[..n], luck);
      HandledKeepsInv(c, HandledAll(c, s, batch[..n], luck), batch[n], luck[n]);
    }
  }

  /** Arrivals, ticks, crashes after part of a batch, which also lose the attempts
      counted in memory, and what the rest of the platform does to interactions. */
  datatype Action =
    | Arrival(provider: string, eventId: string, payload: Option<I.ProviderEvent>)
    | Tick(luck: seq<Luck>)
    | Crash(luck: seq<Luck>, handled: nat)
    | Open(key: I.Key)
    | Move(key: I.Key, to: I.Status, reason: string, now: int)

  predicate Enabled(c: Config, s: State, a: Action) {
    match a
    case Tick(luck) => |luck| >= c.batchSize
    case Crash(luck, handled) =>
      |luck| >= c.batchSize && handled <= |FirstUnprocessed(s.rows, c.batchSize)| <= c.batchSize
    case _ => true
  }

  function Step(c: Config, s: State, a: Action): State
    requires Enabled(c, s, a)
  {
    match a
    case Arrival(p, e, payload) => Persisted(s, p, e, payload)
    case Tick(luck) => Ticked(c, s, luck)
    case Crash(luck, handled) =>
      HandledAll(c, s, FirstUnprocessed(s.rows, c.batchSize)[..handled], luck).(attempts := map[], failures := [])
    case Open(key) => s.(store := I.Created(s.store, key))
    case Move(key, to, reason, now) => s.(store := I.Transitioned(s.store, key, to, reason, now))
  }

  ghost predicate Reaches(c: Config, s: State, acts: seq<Action>, t: State)
    decreases |acts|
  {
    if acts == [] then s == t
    else Enabled(c, s, acts[0]) && Reaches(c, Step(c, s, acts[0]), acts[1..], t)
  }

  function Init(store: I.Store): State {
    State([], map[], store, [], [])
  }

  lemma StepKeepsInv(c: Config, s: State, a: Action)
    requires ConfigOk(c) && Inv(c, s) && Enabled(c, s, a)
    ensures Inv(c, Step(c, s, a))
  {
    match a {
      case Tick(luck) =>
        BatchLength(s.rows, c.batchSize);
        HandledAllKeepsInv(c, s, FirstUnprocessed(s.rows, c.batchSize), luck);
      case Crash(luck, handled) =>
        var batch := FirstUnprocessed(s.rows, c.batchSize)[..handled];
        HandledAllKeepsInv(c, s, batch, luck);
        SameRowsKeepInv(c, HandledAll(c, s, batch, luck), Step(c, s, a));
      case Arrival(_, _, _) => SameRowsKeepInv(c, s, Step(c, s, a));
      case Open(_) => SameRowsKeepInv(c, s, Step(c, s, a));
      case Move(_, _, _, _) => SameRowsKeepInv(c, s, Step(c, s, a));
    }
  }

  ghost predicate Grown(rows: seq<Row>, rows': seq<Row>) {
    && |rows'| == |rows| + 1 && rows'[..|rows|] == rows
    && !rows'[|rows|].processed && !Known(rows, KeyOfRow(rows'[|rows|]))
  }

  /** What a step that handles no row does: add an unprocessed row, forget the
      attempts, or change the interactions. */
  lemma SameRowsKeepInv(c: Config, s: State, t: State)
    requires Inv(c, s) && t.successes == s.successes
    requires t.rows == s.rows || Grown(s.rows, t.rows)
    requires (t.attempts == s.attempts && t.failures == s.failures) || (t.attempts == map[] && t.failures == [])
    ensures Inv(c, t)
  {
    forall k ensures Accounted(c, t, k) { assert Accounted(c, s, k); }
    forall i | 0 <= i < |t.rows| && t.rows[i].processed ensures Succeeded(t, t.rows[i].eventId) {
      assert Succeeded(s, s.rows[i].eventId);
    }
  }

  lemma {:induction false} RunKeepsInv(c: Config, s: State, acts: seq<Action>, t: State)
    requires ConfigOk(c) && Inv(c, s) && Reaches(c, s, acts, t)
    ensures Inv(c, t)
    decreases |acts|
  {
    if acts != [] {
      StepKeepsInv(c, s, acts[0]);
      RunKeepsInv(c, Step(c, s, acts[0]), acts[1..], t);
    }
  }

  /** A row is marked processed only after Process succeeded for its event, and no
      row is tried in vain more than maxAttempts times between two restarts. */
  lemma ProcessedOnlyAfterSuccess(c: Config, store: I.Store, acts: seq<Action>, t: State, i: nat)
    requires ConfigOk(c) && Reaches(c, Init(store), acts, t) && i < |t.rows|
    ensures t.rows[i].processed ==> Succeeded(t, t.rows[i].eventId)
    ensures Count(t.failures, KeyOfRow(t.rows[i])) <= c.maxAttempts
  {
    RunKeepsInv(c, Init(store), acts, t);
    assert Accounted(c, t, KeyOfRow(t.rows[i]));
  }

  // ---- convergence ----

  /** The attempts the unprocessed rows have left. */
  ghost function Remaining(c: Config, rows: seq<Row>, attempts: map<RowKey, nat>): nat {
    if rows == [] then 0
    else RowRemaining(c, rows[0], attempts) + Remaining(c, rows[1..], attempts)
  }

  ghost function RowRemaining(c: Config, r: Row, attempts: map<RowKey, nat>): nat {
    if r.processed || AttemptsOf(attempts, KeyOfRow(r)) >= c.maxAttempts then 0
    else c.maxAttempts - AttemptsOf(attempts, KeyOfRow(r))
  }

  ghost function Measure(c: Config, s: State): nat {
    Remaining(c, s.rows, s.attempts)
  }

  /** rows' differs from rows only in marks, attempts' from attempts only in more
      attempts; then nothing gains, and a row that loses shows in the sum. */
  ghost predicate Worn(rows: seq<Row>, attempts: map<RowKey, nat>, rows': seq<Row>, attempts': map<RowKey, nat>) {
    && |rows| == |rows'|
    && (forall i | 0 <= i < |rows| :: KeyOfRow(rows[i]) == KeyOfRow(rows'[i]) && (rows[i].processed ==> rows'[i].processed))
    && (forall k :: AttemptsOf(attempts, k) <= AttemptsOf(attempts', k))
  }

  lemma {:induction false} RemainingWorn(c: Config, rows: seq<Row>, attempts: map<RowKey, nat>, rows': seq<Row>, attempts': map<RowKey, nat>)
    requires Worn(rows, attempts, rows', attempts')
    ensures Remaining(c, rows', attempts') <= Remaining(c, rows, attempts)
    ensures (exists i :: 0 <= i < |rows| && RowRemaining(c, rows'[i], attempts') < RowRemaining(c, rows[i], attempts))
            ==> Remaining(c, rows', attempts') < Remaining(c, rows, attempts)
  {
    if rows != [] {
      RemainingWorn(c, rows[1..], attempts, rows'[1..], attempts');
      if i :| 0 < i < |rows| && RowRemaining(c, rows'[i], attempts') < RowRemaining(c, rows[i], attempts) {
        assert rows'[1..][i - 1] == rows'[i] && rows[1..][i - 1] == rows[i];
      }
    }
  }

  lemma HandledWears(c: Config, s: State, r: Row, luck: Luck)
    ensures Worn(s.rows, s.attempts, Handled(c, s, r, luck).rows, Handled(c, s, r, luck).attempts)
  {
  }

  lemma {:induction false} HandledAllWears(c: Config, s: State, batch: seq<Row>, luck: seq<Luck>)
    requires |luck| >= |batch|
    ensures Worn(s.rows, s.attempts, HandledAll(c, s, batch, luck).rows, HandledAll(c, s, batch, luck).attempts)
    decreases |batch|
  {
    if batch != [] {
      var n := |batch| - 1;
      HandledAllWears(c, s, batch[..n], luck);
      HandledWears(c, HandledAll(c, s, batch[..n], luck), batch[n], luck[n]);
    }
  }

  /** No row of the batch has attempts left. */
  ghost predicate Exhausted(c: Config, s: State, batch: seq<Row>) {
    forall i | 0 <= i < |batch| :: AttemptsOf(s.attempts, KeyOfRow(batch[i])) >= c.maxAttempts
  }

  lemma {:induction false} ExhaustedIdles(c: Config, s: State, batch: seq<Row>, luck: seq<Luck>)
    requires |luck| >= |batch| && Exhausted(c, s, batch)
    ensures HandledAll(c, s, batch, luck) == s
    decreases |batch|
  {
    if batch != [] { ExhaustedIdles(c, s, batch[..|batch| - 1], luck); }
  }

  predicate MarksLand(luck: seq<Luck>) {
    forall i | 0 <= i < |luck| :: luck[i].markOk
  }

  /** Handling a row with attempts left uses one up, or marks the row. */
  lemma HandledUses(c: Config, s: State, r: Row, luck: Luck, j: nat)
    requires ConfigOk(c) && luck.markOk && j < |s.rows| && Live(c, s, s.rows[j]) && KeyOfRow(r) == KeyOfRow(s.rows[j])
    ensures
      var t := Handled(c, s, r, luck);
      j < |t.rows| && RowRemaining(c, t.rows[j], t.attempts) < RowRemaining(c, s.rows[j], s.attempts)
  {
  }

  /** Row j stands under the key, with at most `most` left. */
  ghost predicate LeftAt(c: Config, s: State, j: nat, key: RowKey, most: nat) {
    j < |s.rows| && KeyOfRow(s.rows[j]) == key && RowRemaining(c, s.rows[j], s.attempts) <= most
  }

  lemma HandledKeepsLeft(c: Config, s: State, r: Row, luck: Luck, j: nat, key: RowKey, most: nat)
    requires LeftAt(c, s, j, key, most)
    ensures LeftAt(c, Handled(c, s, r, luck), j, key, most)
  {
    HandledWears(c, s, r, luck);
  }

  lemma HandledLowers(c: Config, s: State, r: Row, luck: Luck, j: nat, key: RowKey, most: nat)
    requires ConfigOk(c) && luck.markOk && LeftAt(c, s, j, key, most) && 0 < most && KeyOfRow(r) == key
    ensures LeftAt(c, Handled(c, s, r, luck), j, key, most - 1)
  {
    HandledWears(c, s, r, luck);
    if Live(c, s, s.rows[j]) { HandledUses(c, s, r, luck, j); }
  }

  lemma {:induction false} HandledAllKeepsLeft(c: Config, s: State, batch: seq<Row>, luck: seq<Luck>, j: nat, key: RowKey, most: nat)
    requires |luck| >= |batch| && LeftAt(c, s, j, key, most)
    ensures LeftAt(c, HandledAll(c, s, batch, luck), j, key, most)
    decreases |batch|
  {
    if batch != [] {
      var n := |batch| - 1;
      HandledAllKeepsLeft(c, s, batch[..n], luck, j, key, most);
      HandledKeepsLeft(c, HandledAll(c, s, batch[..n], luck), batch[n], luck[n], j, key, most);
    }
  }

  lemma {:induction false} LiveRowUses(c: Config, s: State, batch: seq<Row>, luck: seq<Luck>, i: nat, j: nat, key: RowKey, most: nat)
    requires ConfigOk(c) && |luck| >= |batch| && MarksLand(luck)
    requires LeftAt(c, s, j, key, most) && 0 < most && i < |batch| && KeyOfRow(batch[i]) == key
    ensures LeftAt(c, HandledAll(c, s, batch, luck), j, key, most - 1)
    decreases |batch|
  {
    var n := |batch| - 1;
    var mid := HandledAll(c, s, batch[..n], luck);
    if i < n {
      LiveRowUses(c, s, batch[..n], luck, i, j, key, most);
      HandledKeepsLeft(c, mid, batch[n], luck[n], j, key, most - 1);
    } else {
      HandledAllKeepsLeft(c, s, batch[..n], luck, j, key, most);
      HandledLowers(c, mid, batch[n], luck[n], j, key, most);
    }
  }

  lemma {:induction false} BatchFromRows(rows: seq<Row>, n: nat, i: nat) returns (j: nat)
    requires i < |FirstUnprocessed(rows, n)|
    ensures j < |rows| && rows[j] == FirstUnprocessed(rows, n)[i] && !rows[j].processed
    decreases |rows|
  {
    if rows[0].processed {
      j := BatchFromRows(rows[1..], n, i);
      j := j + 1;
    } else if i == 0 {
      j := 0;
    } else {
      j := BatchFromRows(rows[1..], n - 1, i - 1);
      j := j + 1;
    }
  }

  /** With marks landing, a tick makes progress exactly when one of the first
      batchSize unprocessed rows has attempts left; otherwise it changes nothing
      at all, however many untried rows wait behind. */
  lemma TickProgress(c: Config, s: State, luck: seq<Luck>)
    requires ConfigOk(c) && |luck| >= c.batchSize && MarksLand(luck)
    ensures !Exhausted(c, s, FirstUnprocessed(s.rows, c.batchSize)) <==> Measure(c, Ticked(c, s, luck)) < Measure(c, s)
    ensures Exhausted(c, s, FirstUnprocessed(s.rows, c.batchSize)) ==> Ticked(c, s, luck) == s
  {
    var batch := FirstUnprocessed(s.rows, c.batchSize);
    var t := Ticked(c, s, luck);
    BatchLength(s.rows, c.batchSize);
    if Exhausted(c, s, batch) {
      ExhaustedIdles(c, s, batch, luck);
    } else {
      var i :| 0 <= i < |batch| && AttemptsOf(s.attempts, KeyOfRow(batch[i])) < c.maxAttempts;
      var j := BatchFromRows(s.rows, c.batchSize, i);
      LiveRowUses(c, s, batch, luck, i, j, KeyOfRow(s.rows[j]), RowRemaining(c, s.rows[j], s.attempts));
      HandledAllWears(c, s, batch, luck);
      RemainingWorn(c, s.rows, s.attempts, t.rows, t.attempts);
    }
  }

  /** A run of ticks with no arrivals. */
  ghost predicate Ticks(c: Config, s: State, lucks: seq<seq<Luck>>, t: State)
    decreases |lucks|
  {
    if lucks == [] then s == t
    else |lucks[0]| >= c.batchSize && MarksLand(lucks[0]) && Ticks(c, Ticked(c, s, lucks[0]), lucks[1..], t)
  }

  lemma {:induction false} TicksSettle(c: Config, s: State, lucks: seq<seq<Luck>>, t: State)
    requires ConfigOk(c) && Ticks(c, s, lucks, t) && |lucks| >= Measure(c, s)
    ensures Exhausted(c, t, FirstUnprocessed(t.rows, c.batchSize))
    decreases |lucks|
  {
    if lucks == [] {
      if !Exhausted(c, s, FirstUnprocessed(s.rows, c.batchSize)) {
        var luck := seq(c.batchSize, _ => Luck(0, I.Weather(true, I.Commits), true));
        TickProgress(c, s, luck);
        assert false;
      }
    } else {
      TickProgress(c, s, lucks[0]);
      if Exhausted(c, s, FirstUnprocessed(s.rows, c.batchSize)) {
        StuckStays(c, s, lucks, t);
      } else {
        TicksSettle(c, Ticked(c, s, lucks[0]), lucks[1..], t);
      }
    }
  }

  lemma {:induction false} StuckStays(c: Config, s: State, lucks: seq<seq<Luck>>, t: State)
    requires ConfigOk(c) && Ticks(c, s, lucks, t) && Exhausted(c, s, FirstUnprocessed(s.rows, c.batchSize))
    ensures t == s
    decreases |lucks|
  {
    if lucks != [] {
      TickProgress(c, s, lucks[0]);
      StuckStays(c, s, lucks[1..], t);
    }
  }

  lemma {:induction false} ShortBatchIsAll(rows: seq<Row>, n: nat, j: nat)
    requires |FirstUnprocessed(rows, n)| < n && j < |rows| && !rows[j].processed
    ensures rows[j] in FirstUnprocessed(rows, n)
    decreases |rows|
  {
    if j > 0 { ShortBatchIsAll(rows[1..], if rows[0].processed then n else n - 1, j - 1); }
  }

  /** The drain settles: after as many ticks as there were attempts left, every row
      is processed or has failed exactly maxAttempts times - unless batchSize such
      failed rows stand at the head, which block everything behind them. */
  lemma DrainSettles(c: Config, s: State, lucks: seq<seq<Luck>>, t: State, j: nat)
    requires ConfigOk(c) && Inv(c, s) && Ticks(c, s, lucks, t) && |lucks| >= Measure(c, s) && j < |t.rows|
    ensures t.rows[j].processed || Count(t.failures, KeyOfRow(t.rows[j])) == c.maxAttempts
            || (|FirstUnprocessed(t.rows, c.batchSize)| == c.batchSize
                && forall i | 0 <= i < c.batchSize ::
                     Count(t.failures, KeyOfRow(FirstUnprocessed(t.rows, c.batchSize)[i])) == c.maxAttempts)
  {
    TicksKeepInv(c, s, lucks, t);
    TicksSettle(c, s, lucks, t);
    var batch := FirstUnprocessed(t.rows, c.batchSize);
    BatchLength(t.rows, c.batchSize);
    forall i | 0 <= i < |batch| ensures Count(t.failures, KeyOfRow(batch[i])) == c.maxAttempts {
      assert Accounted(c, t, KeyOfRow(batch[i]));
    }
    if |batch| < c.batchSize && !t.rows[j].processed {
      ShortBatchIsAll(t.rows, c.batchSize, j);
      var i :| 0 <= i < |batch| && batch[i] == t.rows[j];
      assert Count(t.failures, KeyOfRow(batch[i])) == c.maxAttempts;
    }
  }

  lemma {:induction false} TicksKeepInv(c: Config, s: State, lucks: seq<seq<Luck>>, t: State)
    requires ConfigOk(c) && Inv(c, s) && Ticks(c, s, lucks, t)
    ensures Inv(c, t)
    decreases |lucks|
  {
    if lucks != [] {
      StepKeepsInv(c, s, Tick(lucks[0]));
      TicksKeepInv(c, Ticked(c, s, lucks[0]), lucks[1..], t);
    }
  }
}
