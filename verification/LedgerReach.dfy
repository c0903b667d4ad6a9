/** The drain end to end: what a processed ledger row says about the interaction
    its event names. */
module LedgerReach {
  import I = Interactions
  import opened LedgerDrain
  import opened Wrappers

  /** The interaction is at the status the event asks for, or beyond it. */
  ghost predicate Reached(store: I.Store, payload: Option<I.ProviderEvent>) {
    && payload.Some? && I.Complaint(payload.value).None?
    && I.HasReached(store, I.Established(I.KeyOf(payload.value), I.Target(payload.value.event).value))
  }

  ghost predicate At(s: State, k: RowKey, j: int) {
    0 <= j < |s.rows| && KeyOfRow(s.rows[j]) == k && Reached(s.store, s.rows[j].payload)
  }

  /** The row whose Process succeeded is there, and its event has taken effect. */
  ghost predicate Borne(s: State, k: RowKey) {
    exists j :: At(s, k, j)
  }

  ghost predicate AllBorne(s: State) {
    forall k | k in s.successes :: Borne(s, k)
  }

  /** A row as queried: it is still in the ledger, perhaps marked since. */
  ghost predicate Ledgered(rows: seq<Row>, r: Row) {
    exists j :: 0 <= j < |rows| && SameRow(rows[j], r)
  }

  predicate SameRow(a: Row, b: Row) {
    KeyOfRow(a) == KeyOfRow(b) && a.payload == b.payload
  }

  /** Marks and arrivals keep every row's key and payload. */
  ghost predicate Extends(rows: seq<Row>, rows': seq<Row>) {
    |rows| <= |rows'| && forall j | 0 <= j < |rows| :: SameRow(rows[j], rows'[j])
  }

  ghost predicate StoreAdvances(s: I.Store, t: I.Store) {
    forall e | I.HasReached(s, e) :: I.HasReached(t, e)
  }

  lemma TransitionAdvances(s: I.Store, key: I.Key, to: I.Status, reason: string, now: int)
    ensures StoreAdvances(s, I.Transitioned(s, key, to, reason, now))
  {
    forall e | I.HasReached(s, e) ensures I.HasReached(I.Transitioned(s, key, to, reason, now), e) {
      I.TransitionKeepsReached(s, key, to, reason, now, e);
    }
  }

  lemma BorneStays(s: State, t: State, k: RowKey)
    requires Borne(s, k) && Extends(s.rows, t.rows) && StoreAdvances(s.store, t.store)
    ensures Borne(t, k)
  {
    var j :| At(s, k, j);
    assert SameRow(s.rows[j], t.rows[j]);
    assert At(t, k, j);
  }

  /** A nil answer from Process means the interaction is where the event wants it. */
  lemma SuccessReaches(store: I.Store, r: Row, luck: Luck)
    requires ApplyError(store, r, luck).None?
    ensures Reached(AppliedTo(store, r, luck), r.payload)
  {
    var to := I.Target(r.payload.value.event).value;
    assert I.Follows(to, to);
  }

  lemma HandledBears(c: Config, s: State, r: Row, luck: Luck)
    requires AllBorne(s) && Ledgered(s.rows, r)
    ensures AllBorne(Handled(c, s, r, luck)) && Extends(s.rows, Handled(c, s, r, luck).rows)
  {
    var t := Handled(c, s, r, luck);
    if r.payload.Some? {
      var ev := r.payload.value;
      if I.Target(ev.event).Some? {
        TransitionAdvances(s.store, I.KeyOf(ev), I.Target(ev.event).value, ev.detail, luck.now);
      }
    }
    assert StoreAdvances(s.store, t.store);
    forall k | k in t.successes ensures Borne(t, k) {
      if k in s.successes {
        BorneStays(s, t, k);
      } else {
        SuccessReaches(s.store, r, luck);
        var j :| 0 <= j < |s.rows| && SameRow(s.rows[j], r);
        assert SameRow(s.rows[j], t.rows[j]);
        assert At(t, k, j);
      }
    }
  }

  lemma {:induction false} HandledAllBears(c: Config, s: State, batch: seq<Row>, luck: seq<Luck>)
    requires AllBorne(s) && |luck| >= |batch|
    requires forall i | 0 <= i < |batch| :: Ledgered(s.rows, batch[i])
    ensures AllBorne(HandledAll(c, s, batch, luck)) && Extends(s.rows, HandledAll(c, s, batch, luck).rows)
    decreases |batch|
  {
    if batch != [] {
      var n := |batch| - 1;
      HandledAllBears(c, s, batch[..n], luck);
      var mid := HandledAll(c, s, batch[..n], luck);
      var j :| 0 <= j < |s.rows| && SameRow(s.rows[j], batch[n]);
      assert SameRow(mid.rows[j], batch[n]);
      HandledBears(c, mid, batch[n], luck[n]);
    }
  }

  lemma BatchLedgered(rows: seq<Row>, n: nat)
    ensures forall i | 0 <= i < |FirstUnprocessed(rows, n)| :: Ledgered(rows, FirstUnprocessed(rows, n)[i])
  {
    forall i | 0 <= i < |FirstUnprocessed(rows, n)| ensures Ledgered(rows, FirstUnprocessed(rows, n)[i]) {
      var j := BatchFromRows(rows, n, i);
      assert SameRow(rows[j], FirstUnprocessed(rows, n)[i]);
    }
  }

  lemma StepBears(c: Config, s: State, a: Action)
    requires AllBorne(s) && Enabled(c, s, a)
    ensures AllBorne(Step(c, s, a))
  {
    var t := Step(c, s, a);
    var batch := FirstUnprocessed(s.rows, c.batchSize);
    BatchLength(s.rows, c.batchSize);
    BatchLedgered(s.rows, c.batchSize);
    match a {
      case Tick(luck) => HandledAllBears(c, s, batch, luck);
      case Crash(luck, handled) =>
        HandledAllBears(c, s, batch[..handled], luck);
        var mid := HandledAll(c, s, batch[..handled], luck);
        forall k | k in t.successes ensures Borne(t, k) { BorneStays(mid, t, k); }
      case Arrival(_, _, _) =>
        forall k | k in t.successes ensures Borne(t, k) { BorneStays(s, t, k); }
      case Open(key) =>
        assert StoreAdvances(s.store, t.store);
        forall k | k in t.successes ensures Borne(t, k) { BorneStays(s, t, k); }
      case Move(key, to, reason, now) =>
        TransitionAdvances(s.store, key, to, reason, now);
        forall k | k in t.successes ensures Borne(t, k) { BorneStays(s, t, k); }
    }
  }

  lemma {:induction false} RunBears(c: Config, s: State, acts: seq<Action>, t: State)
    requires AllBorne(s) && Reaches(c, s, acts, t)
    ensures AllBorne(t)
    decreases |acts|
  {
    if acts != [] {
      StepBears(c, s, acts[0]);
      RunBears(c, Step(c, s, acts[0]), acts[1..], t);
    }
  }

  /** In every run, with crashes anywhere and interactions moved by others too, the
      event of a processed row has taken effect: its interaction is at the status
      the event asks for, or past it. Rows of two providers sharing a derived
      event id are excluded, since one mark covers both. */
  lemma ProcessedMeansReached(c: Config, store: I.Store, acts: seq<Action>, t: State, i: nat)
    requires ConfigOk(c) && Reaches(c, Init(store), acts, t) && i < |t.rows| && t.rows[i].processed
    requires forall j | 0 <= j < |t.rows| && j != i :: t.rows[j].eventId != t.rows[i].eventId
    ensures Reached(t.store, t.rows[i].payload)
  {
    RunKeepsInv(c, Init(store), acts, t);
    RunBears(c, Init(store), acts, t);
    assert Succeeded(t, t.rows[i].eventId);
    var k :| k in t.successes && k.eventId == t.rows[i].eventId;
    var j :| At(t, k, j);
    assert j == i;
  }
}
