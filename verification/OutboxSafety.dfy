/** At-least-once delivery over every run of the outbox: crashes at any point,
    leases stolen at any point, and a fact table that cannot tell. */
module OutboxSafety {
  import opened Facts
  import opened Outbox
  import opened Wrappers

  /** Rows are never deleted, payloads never change, and what is on the bus
      stays on it. */
  ghost predicate Extends(s: State, t: State) {
    && (forall id | id in s.rows :: id in t.rows && t.rows[id].payload == s.rows[id].payload)
    && (forall e | e in s.bus :: e in t.bus)
    && (forall k | k in s.claims :: k in t.claims && t.claims[k] == s.claims[k])
  }

  lemma StepExtends(c: Config, s: State, a: Action)
    requires Enabled(c, s, a)
    ensures Extends(s, Apply(c, s, a))
  {
  }

  lemma OnBusKept(s: State, t: State, id: string)
    requires Extends(s, t) && OnBus(s, id)
    ensures OnBus(t, id)
  {
  }

  /** Workers other than w are untouched by what w does. */
  lemma OtherWorkersOk(s: State, t: State, w: nat)
    requires WorkersOk(s) && Extends(s, t) && w < |s.workers| == |t.workers|
    requires forall i | 0 <= i < |s.workers| && i != w :: t.workers[i] == s.workers[i]
    requires t.workers[w].Idle?
    ensures WorkersOk(t)
  {
    forall i | 0 <= i < |t.workers| && t.workers[i].Leased?
      ensures forall j | 0 <= j < t.workers[i].next :: OnBus(t, t.workers[i].batch[j])
    {
      forall j | 0 <= j < t.workers[i].next
        ensures OnBus(t, t.workers[i].batch[j])
      {
        OnBusKept(s, t, s.workers[i].batch[j]);
      }
    }
  }

  lemma InsertKeepsInv(c: Config, s: State, id: string, payload: Option<Envelope>, at: int)
    requires Inv(c, s) && Enabled(c, s, Insert(id, payload, at))
    ensures Inv(c, Apply(c, s, Insert(id, payload, at)))
  {
  }

  lemma ClaimKeepsInv(c: Config, s: State, w: nat, token: string, ids: seq<string>)
    requires Inv(c, s) && Enabled(c, s, Claim(w, token, ids))
    ensures Inv(c, Apply(c, s, Claim(w, token, ids)))
  {
    var t := Apply(c, s, Claim(w, token, ids));
    StepExtends(c, s, Claim(w, token, ids));
    OtherWorkersOk(s, t.(workers := s.workers[w := Idle]), w);
  }

  lemma PublishKeepsInv(c: Config, s: State, w: nat)
    requires Inv(c, s) && Enabled(c, s, Publish(w))
    ensures Inv(c, Apply(c, s, Publish(w)))
  {
    var t := Apply(c, s, Publish(w));
    var id := s.workers[w].batch[s.workers[w].next];
    StepExtends(c, s, Publish(w));
    OtherWorkersOk(s, t.(workers := s.workers[w := Idle]), w);
    assert OnBus(t, id);
    forall j | 0 <= j < t.workers[w].next
      ensures OnBus(t, t.workers[w].batch[j])
    {
      if j < s.workers[w].next { OnBusKept(s, t, s.workers[w].batch[j]); }
    }
  }

  lemma PublishErrorKeepsInv(c: Config, s: State, w: nat, reached: bool)
    requires Inv(c, s) && Enabled(c, s, PublishError(w, reached))
    ensures Inv(c, Apply(c, s, PublishError(w, reached)))
  {
    var t := Apply(c, s, PublishError(w, reached));
    StepExtends(c, s, PublishError(w, reached));
    OtherWorkersOk(s, t.(workers := s.workers[w := Idle]), w);
  }

  lemma AckKeepsInv(c: Config, s: State, w: nat)
    requires Inv(c, s) && Enabled(c, s, Ack(w))
    ensures Inv(c, Apply(c, s, Ack(w)))
  {
    var t := Apply(c, s, Ack(w));
    var token, batch := s.workers[w].token, s.workers[w].batch;
    StepExtends(c, s, Ack(w));
    OtherWorkersOk(s, t, w);
    forall id | id in t.rows && t.rows[id].status.Published?
      ensures OnBus(t, id)
    {
      if s.rows[id].token == token {
        assert id in batch;
      }
      assert OnBus(s, id);
    }
  }

  lemma ReleaseKeepsInv(c: Config, s: State, w: nat, now: int)
    requires Inv(c, s) && Enabled(c, s, Release(w, now))
    ensures Inv(c, Apply(c, s, Release(w, now)))
  {
    var t := Apply(c, s, Release(w, now));
    StepExtends(c, s, Release(w, now));
    OtherWorkersOk(s, t, w);
    forall id | id in t.rows && t.rows[id].status.Published?
      ensures OnBus(t, id)
    {
      assert OnBus(s, id);
    }
  }

  lemma StepKeepsInv(c: Config, s: State, a: Action)
    requires Inv(c, s) && Enabled(c, s, a)
    ensures Inv(c, Apply(c, s, a))
  {
    match a
    case Insert(id, payload, at) => InsertKeepsInv(c, s, id, payload, at);
    case Join =>
    case Claim(w, token, ids) => ClaimKeepsInv(c, s, w, token, ids);
    case Publish(w) => PublishKeepsInv(c, s, w);
    case PublishError(w, reached) => PublishErrorKeepsInv(c, s, w, reached);
    case Ack(w) => AckKeepsInv(c, s, w);
    case Release(w, now) => ReleaseKeepsInv(c, s, w, now);
    case Crash(w) => OtherWorkersOk(s, Apply(c, s, a), w);
  }

  lemma {:induction false} RunKeepsInv(c: Config, s: State, acts: seq<Action>, t: State)
    requires Inv(c, s) && Reaches(c, s, acts, t)
    ensures Inv(c, t) && Extends(s, t)
    decreases |acts|
  {
    if acts != [] {
      StepKeepsInv(c, s, acts[0]);
      StepExtends(c, s, acts[0]);
      RunKeepsInv(c, Apply(c, s, acts[0]), acts[1..], t);
    }
  }

  /** Whatever crashed or was stolen on the way, a published row that decodes was
      accepted by the bus; a row that does not decode is published undelivered. */
  lemma PublishedWasDelivered(c: Config, acts: seq<Action>, s: State, id: string)
    requires Reaches(c, EMPTY, acts, s) && id in s.rows && s.rows[id].status.Published?
    ensures s.rows[id].payload.Some? ==> s.rows[id].payload.value in s.bus
    ensures s.rows[id].token == ""
  {
    RunKeepsInv(c, EMPTY, acts, s);
  }

  /** The life of a row: its lease token tracks `publishing`, retries stop at the
      attempt limit, and it is never deleted or altered. */
  lemma RowsLiveOn(c: Config, acts: seq<Action>, s: State, more: seq<Action>, t: State, id: string)
    requires Reaches(c, EMPTY, acts, s) && Reaches(c, s, more, t) && id in s.rows
    ensures id in t.rows && t.rows[id].payload == s.rows[id].payload
    ensures t.rows[id].token != "" <==> t.rows[id].status.Publishing?
    ensures t.rows[id].status.Pending? ==> t.rows[id].attempts < c.maxAttempts
    ensures t.rows[id].status.Failed? ==> t.rows[id].attempts >= c.maxAttempts
  {
    RunKeepsInv(c, EMPTY, acts, s);
    RunKeepsInv(c, s, more, t);
  }

  predicate Parked(r: OutboxRow) {
    r.status.Published? || r.status.Failed?
  }

  lemma ParkedStep(c: Config, s: State, a: Action, id: string)
    requires Inv(c, s) && Enabled(c, s, a) && id in s.rows && Parked(s.rows[id])
    ensures id in Apply(c, s, a).rows && Apply(c, s, a).rows[id] == s.rows[id]
  {
    if a.Ack? || a.Release? { assert s.workers[a.w].token in s.claims; }
  }

  /** Published and failed rows never move again. */
  lemma {:induction false} ParkedForever(c: Config, s: State, acts: seq<Action>, t: State, id: string)
    requires Inv(c, s) && Reaches(c, s, acts, t) && id in s.rows && Parked(s.rows[id])
    ensures id in t.rows && t.rows[id] == s.rows[id]
    decreases |acts|
  {
    if acts != [] {
      StepKeepsInv(c, s, acts[0]);
      ParkedStep(c, s, acts[0], id);
      ParkedForever(c, Apply(c, s, acts[0]), acts[1..], t, id);
    }
  }

  // ---- token fencing ----

  /** A claim made with `token` once, and row id no longer carrying it. */
  predicate Lost(s: State, token: string, id: string) {
    token in s.claims && id in s.rows && s.rows[id].token != token
  }

  lemma {:induction false} LeaseNeverRegained(c: Config, s: State, acts: seq<Action>, t: State, token: string, id: string)
    requires Inv(c, s) && Reaches(c, s, acts, t) && Lost(s, token, id)
    ensures Inv(c, t) && Lost(t, token, id)
    decreases |acts|
  {
    if acts != [] {
      StepKeepsInv(c, s, acts[0]);
      LeaseNeverRegained(c, Apply(c, s, acts[0]), acts[1..], t, token, id);
    }
  }

  /** A dispatcher whose lease on a row was taken over can acknowledge or release
      as late as it likes: from the takeover on it never touches that row. */
  lemma StaleWorkerHarmless(c: Config, s: State, acts: seq<Action>, t: State, a: Action, id: string)
    requires Inv(c, s) && Reaches(c, s, acts, t) && Enabled(c, t, a) && (a.Ack? || a.Release?)
    requires Lost(s, t.workers[a.w].token, id)
    ensures id in t.rows && Apply(c, t, a).rows[id] == t.rows[id]
  {
    LeaseNeverRegained(c, s, acts, t, t.workers[a.w].token, id);
  }

  // ---- rows a crash strands ----

  /** A claim that took only rows its WHERE clause selects, at time now. */
  predicate ByClause(s: State, a: Action, now: int) {
    a.Claim? ==> forall id | id in a.ids :: id in s.rows && Claimable(s.rows[id], now)
  }

  /** A run in which no claim races another, with the clock read at each claim. */
  ghost predicate CleanRun(c: Config, s: State, acts: seq<Action>, clock: seq<int>, t: State)
    decreases |acts|
  {
    |clock| == |acts| &&
    if acts == [] then s == t
    else Enabled(c, s, acts[0]) && ByClause(s, acts[0], clock[0])
         && CleanRun(c, Apply(c, s, acts[0]), acts[1..], clock[1..], t)
  }

  /** Nobody works on this claim any more. */
  predicate Abandoned(s: State, token: string) {
    forall w | 0 <= w < |s.workers| :: !s.workers[w].Idle? ==> s.workers[w].token != token
  }

  predicate Orphan(s: State, id: string) {
    id in s.rows && s.rows[id].status.Publishing? && Abandoned(s, s.rows[id].token)
  }

  lemma StrandedStep(c: Config, s: State, a: Action, now: int, id: string)
    requires Inv(c, s) && Enabled(c, s, a) && ByClause(s, a, now)
    requires Orphan(s, id) && s.rows[id].leaseExpires.None?
    ensures Orphan(Apply(c, s, a), id) && Apply(c, s, a).rows[id] == s.rows[id]
  {
  }

  lemma {:induction false} StrandedForever(c: Config, s: State, acts: seq<Action>, clock: seq<int>, t: State, id: string)
    requires Inv(c, s) && CleanRun(c, s, acts, clock, t)
    requires Orphan(s, id) && s.rows[id].leaseExpires.None?
    ensures id in t.rows && t.rows[id] == s.rows[id]
    decreases |acts|
  {
    if acts != [] {
      StrandedStep(c, s, acts[0], clock[0], id);
      StepKeepsInv(c, s, acts[0]);
      StrandedForever(c, Apply(c, s, acts[0]), acts[1..], clock[1..], t, id);
    }
  }

  predicate Touched(s: State, t: State, id: string) {
    id in s.rows && (id !in t.rows || t.rows[id] != s.rows[id])
  }

  /** Some run of clause-respecting claims changes the row. */
  ghost predicate Reclaimable(c: Config, s: State, id: string) {
    exists acts, clock, t :: CleanRun(c, s, acts, clock, t) && Touched(s, t, id)
  }

  lemma Reclaim(c: Config, s: State, id: string)
    returns (acts: seq<Action>, clock: seq<int>, t: State)
    requires Inv(c, s) && Orphan(s, id) && c.batchSize >= 1 && s.rows[id].leaseExpires.Some?
    ensures CleanRun(c, s, acts, clock, t) && Touched(s, t, id)
  {
    var token := FreshToken(s.claims.Keys);
    var now := s.rows[id].leaseExpires.value + 1;
    var joined := Apply(c, s, Join);
    var claim := Claim(|s.workers|, token, [id]);
    assert Enabled(c, joined, claim) && ByClause(joined, claim, now);
    t := Apply(c, joined, claim);
    assert t.rows[id].attempts == s.rows[id].attempts + 1;
    acts, clock := [Join, claim], [0, now];
    assert acts[1..] == [claim] && clock[1..] == [now];
    assert [claim][1..] == [] && [now][1..] == [];
    assert CleanRun(c, t, [], [], t);
    assert CleanRun(c, joined, [claim], [now], t);
  }

  /** Claim never sets a lease expiry, so a row whose dispatcher crashed can be
      reclaimed by the claim statement if and only if an earlier release of the
      same row had left one behind. */
  lemma ReclaimedIffReleasedBefore(c: Config, s: State, id: string)
    requires Inv(c, s) && Orphan(s, id) && c.batchSize >= 1
    ensures Reclaimable(c, s, id) <==> s.rows[id].leaseExpires.Some?
  {
    if s.rows[id].leaseExpires.Some? {
      var acts, clock, t := Reclaim(c, s, id);
      assert CleanRun(c, s, acts, clock, t) && Touched(s, t, id);
    } else {
      forall acts, clock, t | CleanRun(c, s, acts, clock, t)
        ensures !Touched(s, t, id)
      {
        StrandedForever(c, s, acts, clock, t, id);
      }
    }
  }

  /** A non-empty token outside a finite set: one longer than all of them. */
  lemma {:induction false} FreshToken(used: set<string>) returns (token: string)
    ensures token != "" && token !in used
    ensures forall k | k in used :: |k| < |token|
  {
    if used == {} {
      token := "0";
    } else {
      var k :| k in used;
      var shorter := FreshToken(used - {k});
      token := shorter + k;
    }
  }

  lemma FirstLease(c: Config, id: string, e: Envelope) returns (acts: seq<Action>, s: State)
    requires c == Config(100, 10) && e.id == id
    ensures Reaches(c, EMPTY, acts, s) && s.workers == [Leased("t", [id], 0)]
    ensures s.rows == map[id := NewRow(Some(e), 0).(status := Publishing, token := "t", attempts := 1)]
  {
    var s1 := Apply(c, EMPTY, Insert(id, Some(e), 0));
    var s2 := Apply(c, s1, Join);
    s := Apply(c, s2, Claim(0, "t", [id]));
    acts := [Insert(id, Some(e), 0), Join, Claim(0, "t", [id])];
    assert acts[1..] == [Join, Claim(0, "t", [id])];
    assert acts[1..][1..] == [Claim(0, "t", [id])];
    assert acts[1..][1..][1..] == [];
    assert Reaches(c, s, [], s);
    assert Reaches(c, s2, [Claim(0, "t", [id])], s);
    assert Reaches(c, s1, [Join, Claim(0, "t", [id])], s);
  }

  lemma {:induction false} ReachesMore(c: Config, s: State, acts: seq<Action>, t: State, a: Action)
    requires Reaches(c, s, acts, t) && Enabled(c, t, a)
    ensures Reaches(c, s, acts + [a], Apply(c, t, a))
    decreases |acts|
  {
    if acts == [] {
      assert [a][1..] == [];
      assert Reaches(c, Apply(c, t, a), [], Apply(c, t, a));
    } else {
      assert (acts + [a])[1..] == acts[1..] + [a];
      ReachesMore(c, Apply(c, s, acts[0]), acts[1..], t, a);
    }
  }

  /** The first crash of a row's first dispatcher strands it, even after the bus
      accepted its envelope. */
  lemma FirstCrashStrands(c: Config, id: string, e: Envelope) returns (acts: seq<Action>, s: State)
    requires c == Config(100, 10) && e.id == id
    ensures Reaches(c, EMPTY, acts, s) && Inv(c, s)
    ensures Orphan(s, id) && s.rows[id].leaseExpires.None? && e in s.bus
  {
    var leasing, leased := FirstLease(c, id, e);
    var sent := Apply(c, leased, Publish(0));
    ReachesMore(c, EMPTY, leasing, leased, Publish(0));
    ReachesMore(c, EMPTY, leasing + [Publish(0)], sent, Crash(0));
    acts, s := leasing + [Publish(0)] + [Crash(0)], Apply(c, sent, Crash(0));
    RunKeepsInv(c, EMPTY, acts, s);
  }
}
