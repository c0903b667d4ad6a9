/** The facts consumer: inserts keyed by event id that tolerate every duplicate
    and every order of the deliveries the outbox produces. */
module FactsConsumer {
  import opened Facts
  import Outbox
  import OutboxSafety

  /** interaction_fact and usage_fact, keyed by event_id. */
  datatype FactTables = FactTables(interactions: map<string, Row>, usage: map<string, Row>)

  const NO_FACTS := FactTables(map[], map[])

  /** INSERT ... ON CONFLICT (event_id) DO NOTHING. */
  function InsertOnce(t: map<string, Row>, r: Row): map<string, Row> {
    if r.eventId in t then t else t[r.eventId := r]
  }

  function Absorb(f: FactTables, env: Envelope): FactTables {
    match Extract(env)
    case Ignored => f
    case Fact(row) =>
      if row.InteractionRow? then f.(interactions := InsertOnce(f.interactions, row))
      else f.(usage := InsertOnce(f.usage, row))
  }

  function AbsorbAll(f: FactTables, envs: seq<Envelope>): FactTables
    decreases |envs|
  {
    if envs == [] then f else Absorb(AbsorbAll(f, envs[..|envs| - 1]), envs[|envs| - 1])
  }

  class Consumer {
    var interactionFact: map<string, Row>
    var usageFact: map<string, Row>

    ghost function View(): FactTables
      reads this
    {
      FactTables(interactionFact, usageFact)
    }

    constructor ()
      ensures View() == NO_FACTS
    {
      interactionFact, usageFact := map[], map[];
    }

    /** Appends the fact of one envelope; `dbOk` is the database's answer. */
    method Handle(env: Envelope, dbOk: bool) returns (ok: bool)
      modifies this
      ensures View() == if ok then Absorb(old(View()), env) else old(View())
      ensures ok <==> dbOk || Extract(env).Ignored?
    {
      ok := true;
      match env.topic
      case InteractionCreated | InteractionUpdated | InteractionCompleted =>
        var status := TextAt(env.data, "status");
        if status == "" { status := "unknown"; }
        var subject := env.subject;
        if subject == "" { subject := TextAt(env.data, "interaction_id"); }
        if subject == "" { return; }
        if !dbOk { return false; }
        if env.id !in interactionFact {
          interactionFact := interactionFact[env.id :=
            InteractionRow(env.id, env.tenantId, subject, TextAt(env.data, "channel"),
                           TextAt(env.data, "direction"), status, env.time)];
        }
      case UsageRecorded =>
        if !dbOk { return false; }
        if env.id !in usageFact {
          usageFact := usageFact[env.id :=
            UsageRow(env.id, env.tenantId, TextAt(env.data, "metric"),
                     NumberAt(env.data, "output_tokens"), env.time)];
        }
      case _ =>
    }
  }

  /** Redeliveries of one event id are copies of one envelope. */
  ghost predicate Consistent(envs: seq<Envelope>) {
    forall a, b | a in envs && b in envs && a.id == b.id :: a == b
  }

  /** The interaction fact that some delivered envelope contributes under id. */
  ghost predicate Contributes(envs: seq<Envelope>, id: string, row: Row) {
    exists e :: e in envs && e.id == id && Extract(e) == Fact(row)
  }

  predicate Has(m: map<string, Row>, id: string, row: Row) {
    id in m && m[id] == row
  }

  lemma ExtractKeepsId(e: Envelope)
    ensures Extract(e).Fact? ==> Extract(e).row.eventId == e.id
  {
  }

  /** The tables hold exactly the contributed facts, one per event id. */
  lemma {:induction false} TablesAreContributions(envs: seq<Envelope>, id: string, row: Row)
    requires Consistent(envs)
    ensures
      var f := AbsorbAll(NO_FACTS, envs);
      && (Has(f.interactions, id, row) <==> row.InteractionRow? && Contributes(envs, id, row))
      && (Has(f.usage, id, row) <==> row.UsageRow? && Contributes(envs, id, row))
    decreases |envs|
  {
    if envs != [] {
      var init, last := envs[..|envs| - 1], envs[|envs| - 1];
      assert envs == init + [last];
      ExtractKeepsId(last);
      TablesAreContributions(init, id, row);
      assert Contributes(envs, id, row) <==>
        Contributes(init, id, row) || (last.id == id && Extract(last) == Fact(row));
      if last.id == id && Extract(last).Fact? {
        TablesAreContributions(init, id, Extract(last).row);
        if id in AbsorbAll(NO_FACTS, init).interactions {
          TablesAreContributions(init, id, AbsorbAll(NO_FACTS, init).interactions[id]);
        }
        if id in AbsorbAll(NO_FACTS, init).usage {
          TablesAreContributions(init, id, AbsorbAll(NO_FACTS, init).usage[id]);
        }
      }
    }
  }

  /** Two consumers that saw the same set of envelopes, in whatever order and
      with whatever duplicates, hold identical fact tables. */
  lemma DuplicatesAndOrderInvisible(a: seq<Envelope>, b: seq<Envelope>)
    requires Consistent(a) && forall e :: e in a <==> e in b
    ensures AbsorbAll(NO_FACTS, a) == AbsorbAll(NO_FACTS, b)
  {
    var fa, fb := AbsorbAll(NO_FACTS, a), AbsorbAll(NO_FACTS, b);
    assert forall id, row :: Contributes(a, id, row) <==> Contributes(b, id, row);
    forall id, row
      ensures Has(fa.interactions, id, row) <==> Has(fb.interactions, id, row)
      ensures Has(fa.usage, id, row) <==> Has(fb.usage, id, row)
    {
      TablesAreContributions(a, id, row);
      TablesAreContributions(b, id, row);
    }
    SameMap(fa.interactions, fb.interactions);
    SameMap(fa.usage, fb.usage);
  }

  lemma SameMap(a: map<string, Row>, b: map<string, Row>)
    requires forall id, row :: Has(a, id, row) <==> Has(b, id, row)
    ensures a == b
  {
    forall id
      ensures id in a <==> id in b
      ensures id in a ==> a[id] == b[id]
    {
      if id in a { assert Has(a, id, a[id]); }
      if id in b { assert Has(b, id, b[id]); }
    }
  }

  /** The dedupe key is the id alone: of two envelopes under one id the order shows
      in the tables if and only if both carry a fact, for the same table, and the
      facts differ. */
  lemma ReusedIdOrderShowsIff(a: Envelope, b: Envelope)
    requires a.id == b.id
    ensures AbsorbAll(NO_FACTS, [a, b]) != AbsorbAll(NO_FACTS, [b, a]) <==>
            && Extract(a).Fact? && Extract(b).Fact? && Extract(a) != Extract(b)
            && Extract(a).row.InteractionRow? == Extract(b).row.InteractionRow?
  {
    PairAbsorbed(a, b);
    PairAbsorbed(b, a);
    AbsorbTwo(a, b);
    AbsorbTwo(b, a);
    ShownByMap(a.id);
  }

  lemma PairAbsorbed(a: Envelope, b: Envelope)
    ensures AbsorbAll(NO_FACTS, [a, b]) == Absorb(Absorb(NO_FACTS, a), b)
  {
    AbsorbSnoc([], a);
    AbsorbSnoc([a], b);
    assert [] + [a] == [a] && [a] + [b] == [a, b];
  }

  lemma AbsorbSnoc(envs: seq<Envelope>, e: Envelope)
    ensures AbsorbAll(NO_FACTS, envs + [e]) == Absorb(AbsorbAll(NO_FACTS, envs), e)
  {
    assert (envs + [e])[..|envs|] == envs;
  }

  lemma ShownByMap(id: string)
    ensures forall x: Row, y: Row :: map[id := x] == map[id := y] ==> x == y
    ensures forall x: Row :: map[id := x] != map[]
  {
    forall x: Row, y: Row | map[id := x] == map[id := y] ensures x == y {
      assert map[id := x][id] == x && map[id := y][id] == y;
    }
    forall x: Row ensures map[id := x] != map[] { assert id in map[id := x]; }
  }

  /** What two envelopes under one id leave: the first fact of each table. */
  lemma AbsorbTwo(a: Envelope, b: Envelope)
    requires a.id == b.id
    ensures
      var f := Absorb(Absorb(NO_FACTS, a), b);
      var x, y := Extract(a), Extract(b);
      && f.interactions == (if x.Fact? && x.row.InteractionRow? then map[a.id := x.row]
                            else if y.Fact? && y.row.InteractionRow? then map[a.id := y.row] else map[])
      && f.usage == (if x.Fact? && x.row.UsageRow? then map[a.id := x.row]
                     else if y.Fact? && y.row.UsageRow? then map[a.id := y.row] else map[])
  {
    ExtractKeepsId(a);
    ExtractKeepsId(b);
  }

  // ---- what an announcement leaves in the tables ----

  /** The envelope that announces a row: an interaction's id stands in the subject or
      in the data, everything else in the data under its own name. */
  function Announced(row: Row, topic: Topic, bySubject: bool): Envelope {
    match row
    case InteractionRow(eventId, tenantId, interactionId, channel, direction, status, at) =>
      var data := map["channel" := Text(channel), "direction" := Text(direction), "status" := Text(status)];
      Envelope(eventId, topic, if bySubject then interactionId else "", tenantId, at,
               if bySubject then data else data["interaction_id" := Text(interactionId)])
    case UsageRow(eventId, tenantId, metric, amount, at) =>
      Envelope(eventId, topic, "", tenantId, at,
               map["metric" := Text(metric), "output_tokens" := Number(amount as real)])
  }

  /** The topics that carry rows of a kind. */
  predicate Carries(topic: Topic, row: Row) {
    if row.InteractionRow? then topic.InteractionCreated? || topic.InteractionUpdated? || topic.InteractionCompleted?
    else topic.UsageRecorded?
  }

  /** A row as it is stored: an interaction without a status is of unknown status. */
  function AsStored(row: Row): Row {
    if row.InteractionRow? && row.status == "" then row.(status := "unknown") else row
  }

  /** Round trip: the announcement of any row, handled under a new event id, adds
      exactly that row to its own table and touches nothing else. */
  lemma AnnouncedRowIsStored(f: FactTables, row: Row, topic: Topic, bySubject: bool)
    requires Carries(topic, row) && (row.InteractionRow? ==> row.interactionId != "")
    requires row.eventId !in f.interactions && row.eventId !in f.usage
    ensures
      var g := Absorb(f, Announced(row, topic, bySubject));
      if row.InteractionRow? then g == f.(interactions := f.interactions[row.eventId := AsStored(row)])
      else g == f.(usage := f.usage[row.eventId := row])
  {
    var e := Announced(row, topic, bySubject);
    if row.UsageRow? {
      assert ((row.amount as real).Floor) == row.amount && ((-(row.amount as real)).Floor) == -row.amount;
    } else {
      assert TextAt(e.data, "channel") == row.channel && TextAt(e.data, "direction") == row.direction;
      assert TextAt(e.data, "status") == row.status;
      assert !bySubject ==> TextAt(e.data, "interaction_id") == row.interactionId;
    }
  }

  /** Which envelopes carry a fact at all, and for which table; an interaction's
      subject wins over the id in its data. */
  lemma FactsByTopic(e: Envelope)
    ensures Extract(e).Fact? && Extract(e).row.UsageRow? <==> e.topic.UsageRecorded?
    ensures Extract(e).Fact? && Extract(e).row.InteractionRow? <==>
            (e.topic.InteractionCreated? || e.topic.InteractionUpdated? || e.topic.InteractionCompleted?)
            && (e.subject != "" || TextAt(e.data, "interaction_id") != "")
    ensures Extract(e).Fact? && Extract(e).row.InteractionRow? && e.subject != "" ==>
              Extract(e).row.interactionId == e.subject
  {
  }

  /** End to end: once the consumer has seen all the bus accepted, however often
      and in whatever order, every published row that carries a fact has exactly
      that fact, and every fact is the fact of some outbox row. */
  lemma OneFactPerPublishedRow(c: Outbox.Config, acts: seq<Outbox.Action>, s: Outbox.State,
                               deliveries: seq<Envelope>, id: string)
    requires Outbox.Reaches(c, Outbox.EMPTY, acts, s)
    requires forall e :: e in deliveries <==> e in s.bus
    ensures
      var f := AbsorbAll(NO_FACTS, deliveries);
      id in s.rows && s.rows[id].status.Published? && s.rows[id].payload.Some?
        && Extract(s.rows[id].payload.value).Fact? ==>
        (var row := Extract(s.rows[id].payload.value).row;
         if row.InteractionRow? then Has(f.interactions, id, row) else Has(f.usage, id, row))
    ensures
      var f := AbsorbAll(NO_FACTS, deliveries);
      && (id in f.interactions ==> id in s.rows && s.rows[id].payload.Some?
                                   && Extract(s.rows[id].payload.value) == Fact(f.interactions[id]))
      && (id in f.usage ==> id in s.rows && s.rows[id].payload.Some?
                            && Extract(s.rows[id].payload.value) == Fact(f.usage[id]))
  {
    OutboxSafety.RunKeepsInv(c, Outbox.EMPTY, acts, s);
    var f := AbsorbAll(NO_FACTS, deliveries);
    forall a, b | a in deliveries && b in deliveries && a.id == b.id
      ensures a == b
    {
      assert a in s.bus && b in s.bus;
    }
    if id in s.rows && s.rows[id].status.Published? && s.rows[id].payload.Some?
       && Extract(s.rows[id].payload.value).Fact? {
      var e := s.rows[id].payload.value;
      assert Outbox.OnBus(s, id) && e in deliveries && e.id == id;
      assert Contributes(deliveries, id, Extract(e).row);
      TablesAreContributions(deliveries, id, Extract(e).row);
    }
    if id in f.interactions { FactHasRow(s, deliveries, id, f.interactions[id]); }
    if id in f.usage { FactHasRow(s, deliveries, id, f.usage[id]); }
  }

  lemma FactHasRow(s: Outbox.State, deliveries: seq<Envelope>, id: string, row: Row)
    requires Outbox.BusOk(s) && Consistent(deliveries) && forall e :: e in deliveries <==> e in s.bus
    requires
      var f := AbsorbAll(NO_FACTS, deliveries);
      Has(f.interactions, id, row) || Has(f.usage, id, row)
    ensures id in s.rows && s.rows[id].payload.Some? && Extract(s.rows[id].payload.value) == Fact(row)
  {
    TablesAreContributions(deliveries, id, row);
    var e :| e in deliveries && e.id == id && Extract(e) == Fact(row);
    assert e in s.bus;
  }
}
