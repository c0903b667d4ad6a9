/** The search indexer: any number of bus handlers in front of one bounded queue,
    and one worker that projects events into the conversation index.

    A step is one critical section or channel operation, so a run is a list of
    actions. The class below is the same code run by one goroutine at a time. */
module Indexer {
  import opened Facts
  import RingMap
  import opened Wrappers

  /** Queue and ring sizes after defaults, and whether OpenSearch is configured. */
  datatype Config = Config(queueCap: nat, ringCap: nat, configured: bool)

  predicate ConfigOk(c: Config) {
    c.queueCap >= 1 && c.ringCap >= 1
  }

  predicate Projected(t: Topic) {
    match t
    case ConversationOpened | ConversationClosed | InteractionCreated
       | InteractionUpdated | InteractionAssigned | InteractionCompleted => true
    case _ => false
  }

  function FirstNonEmpty(a: string, b: string): string {
    if a != "" then a else b
  }

  function ConversationOf(env: Envelope): string {
    FirstNonEmpty(TextAt(env.data, "conversation_id"), env.subject)
  }

  function InteractionOf(env: Envelope): string {
    FirstNonEmpty(TextAt(env.data, "interaction_id"), env.subject)
  }

  /** What projecting an event does: skip it, or one write to a conversation.
      An event of another topic would be ignored without being counted. */
  datatype Plan = Ignore | Skip | Upsert(conv: string)

  /** The interaction-to-conversation link a created event teaches, if any. */
  function Lesson(env: Envelope): Option<RingMap.Pair> {
    if env.topic.InteractionCreated? && TextAt(env.data, "conversation_id") != "" && InteractionOf(env) != ""
    then Some(RingMap.Pair(InteractionOf(env), TextAt(env.data, "conversation_id")))
    else None
  }

  function PlanFor(convOf: map<string, string>, env: Envelope): Plan {
    match env.topic
    case ConversationOpened | ConversationClosed =>
      if ConversationOf(env) == "" then Skip else Upsert(ConversationOf(env))
    case InteractionCreated =>
      if Lesson(env).Some? then Upsert(Lesson(env).value.val) else Skip
    case InteractionUpdated | InteractionAssigned | InteractionCompleted =>
      if InteractionOf(env) == "" || InteractionOf(env) !in convOf then Skip
      else Upsert(convOf[InteractionOf(env)])
    case _ => Ignore
  }

  function Learn(r: RingMap.Ring, env: Envelope): RingMap.Ring
    requires |r.slots| > 0
  {
    if Lesson(env).Some? then RingMap.Set(r, Lesson(env).value.key, Lesson(env).value.val) else r
  }

  /** One event the worker is done with; `ok` is the answer to its write. */
  datatype Done = Done(env: Envelope, plan: Plan, ok: bool)

  datatype Stats = Stats(indexed: nat, dropped: nat, failed: nat, deduped: nat, skipped: nat)

  function Counted(t: Stats, plan: Plan, ok: bool): Stats {
    if plan.Ignore? then t
    else if plan.Skip? then t.(skipped := t.skipped + 1)
    else if ok then t.(indexed := t.indexed + 1)
    else t.(failed := t.failed + 1)
  }

  datatype Worker = Idle | Holding(env: Envelope) | Gone

  /** Every projected envelope handled, and where it went. */
  datatype Log = Log(
    accepted: seq<Envelope>,
    replays: seq<Envelope>,
    shed: seq<Envelope>,
    enqueued: seq<Envelope>,
    done: seq<Done>)

  /** `offers` are the handlers between the dedupe and the queue. */
  datatype State = State(
    seen: RingMap.Ring,
    convOf: RingMap.Ring,
    offers: seq<Envelope>,
    queue: seq<Envelope>,
    worker: Worker,
    quitting: bool,
    stats: Stats,
    log: Log)

  datatype Action =
    | Arrive(env: Envelope)
    | Offer(handler: nat)
    | Take
    | Project(writeOk: bool)
    | Quit
    | WorkerLeaves

  function Init(c: Config): State {
    var empty := RingMap.Ring(map[], RingMap.Blank(c.ringCap));
    State(empty, empty, [], [], Idle, false, Stats(0, 0, 0, 0, 0), Log([], [], [], [], []))
  }

  predicate Sized(s: State) {
    |s.seen.slots| > 0 && |s.convOf.slots| > 0
  }

  /** Handle up to and including the dedupe. */
  function Arrived(c: Config, s: State, env: Envelope): State
    requires Sized(s)
  {
    if !Projected(env.topic) || !c.configured then s
    else
      var log := s.log.(accepted := s.log.accepted + [env]);
      if env.id in s.seen.m then
        s.(stats := s.stats.(deduped := s.stats.deduped + 1), log := log.(replays := log.replays + [env]))
      else
        s.(seen := RingMap.Added(s.seen, env.id), offers := s.offers + [env], log := log)
  }

  /** The select with a default: queue, or drop. */
  function Offered(c: Config, s: State, i: nat): State
    requires i < |s.offers|
  {
    var env := s.offers[i];
    var left := s.offers[..i] + s.offers[i + 1..];
    if |s.queue| < c.queueCap then
      s.(offers := left, queue := s.queue + [env], log := s.log.(enqueued := s.log.enqueued + [env]))
    else
      s.(offers := left, stats := s.stats.(dropped := s.stats.dropped + 1),
         log := s.log.(shed := s.log.shed + [env]))
  }

  function Taken(s: State): State
    requires s.queue != []
  {
    s.(worker := Holding(s.queue[0]), queue := s.queue[1..])
  }

  /** A link is learned before the write, and kept when the write fails. */
  function ProjectedBy(s: State, ok: bool): State
    requires s.worker.Holding? && Sized(s)
  {
    var env := s.worker.env;
    var plan := PlanFor(s.convOf.m, env);
    s.(worker := Idle, convOf := Learn(s.convOf, env), stats := Counted(s.stats, plan, ok),
       log := s.log.(done := s.log.done + [Done(env, plan, ok)]))
  }

  ghost predicate Enabled(s: State, a: Action) {
    match a
    case Arrive(_) => Sized(s)
    case Offer(i) => i < |s.offers|
    case Take => s.worker.Idle? && s.queue != []
    case Project(_) => s.worker.Holding? && Sized(s)
    case Quit => true
    case WorkerLeaves => s.worker.Idle? && s.quitting
  }

  ghost function Apply(c: Config, s: State, a: Action): State
    requires Enabled(s, a)
  {
    match a
    case Arrive(env) => Arrived(c, s, env)
    case Offer(i) => Offered(c, s, i)
    case Take => Taken(s)
    case Project(ok) => ProjectedBy(s, ok)
    case Quit => s.(quitting := true)
    case WorkerLeaves => s.(worker := Gone)
  }

  ghost predicate Reaches(c: Config, s: State, acts: seq<Action>, t: State)
    decreases |acts|
  {
    if acts == [] then s == t
    else Enabled(s, acts[0]) && Reaches(c, Apply(c, s, acts[0]), acts[1..], t)
  }

  datatype Answer = Nil | NotConfigured

  /** The indexer as one goroutine at a time sees it. */
  class Consumer {
    const config: Config
    const seen: RingMap.Map
    const convOf: RingMap.Map
    var queue: seq<Envelope>
    var worker: Worker
    var stats: Stats
    ghost var log: Log

    ghost predicate Valid()
      reads this, seen, convOf
    {
      && ConfigOk(config)
      && seen.Valid() && convOf.Valid()
      && seen != convOf && seen.order != convOf.order
    }

    ghost function Abs(): State
      reads this, seen, convOf, seen.order, convOf.order
      requires Valid()
    {
      State(seen.Abs(), convOf.Abs(), [], queue, worker, false, stats, log)
    }

    constructor (c: Config)
      requires ConfigOk(c)
      ensures Valid() && config == c
      ensures fresh(seen) && fresh(convOf) && fresh(seen.order) && fresh(convOf.order)
      ensures Abs() == Init(c)
    {
      config := c;
      seen := new RingMap.Map(c.ringCap);
      convOf := new RingMap.Map(c.ringCap);
      queue, worker, stats := [], Idle, Stats(0, 0, 0, 0, 0);
      log := Log([], [], [], [], []);
    }

    /** Handle never blocks and never reports a full queue. */
    method Handle(env: Envelope) returns (err: Answer)
      requires Valid()
      modifies this, seen, seen.order
      ensures Valid()
      ensures err == if Projected(env.topic) && !config.configured then NotConfigured else Nil
      ensures
        var s := Arrived(config, old(Abs()), env);
        Abs() == if s.offers == [] then s else Offered(config, s, 0)
    {
      if !Projected(env.topic) { return Nil; }
      if !config.configured { return NotConfigured; }
      log := log.(accepted := log.accepted + [env]);
      var duplicate := seen.PutIfAbsent(env.id);
      if duplicate {
        stats := stats.(deduped := stats.deduped + 1);
        log := log.(replays := log.replays + [env]);
        return Nil;
      }
      if |queue| < config.queueCap {
        queue := queue + [env];
        log := log.(enqueued := log.enqueued + [env]);
      } else {
        stats := stats.(dropped := stats.dropped + 1);
        log := log.(shed := log.shed + [env]);
      }
      return Nil;
    }

    method Write(ok: bool)
      modifies this`stats
      ensures stats == if ok then old(stats).(indexed := old(stats).indexed + 1)
                       else old(stats).(failed := old(stats).failed + 1)
    {
      if ok {
        stats := stats.(indexed := stats.indexed + 1);
      } else {
        stats := stats.(failed := stats.failed + 1);
      }
    }

    /** The worker's handling of one event; `writeOk` is OpenSearch's answer. */
    method ProjectOne(env: Envelope, writeOk: bool) returns (plan: Plan)
      requires Valid()
      modifies this`stats, convOf, convOf.order
      ensures Valid()
      ensures plan == PlanFor(old(convOf.m), env)
      ensures convOf.Abs() == Learn(old(convOf.Abs()), env)
      ensures stats == Counted(old(stats), plan, writeOk)
    {
      plan := Skip;
      match env.topic {
        case ConversationOpened | ConversationClosed =>
          var conv := FirstNonEmpty(TextAt(env.data, "conversation_id"), env.subject);
          if conv != "" { plan := Upsert(conv); }
        case InteractionCreated =>
          var conv := TextAt(env.data, "conversation_id");
          var inter := FirstNonEmpty(TextAt(env.data, "interaction_id"), env.subject);
          if conv != "" && inter != "" {
            convOf.Put(inter, conv);
            plan := Upsert(conv);
          }
        case InteractionUpdated | InteractionAssigned | InteractionCompleted =>
          var inter := FirstNonEmpty(TextAt(env.data, "interaction_id"), env.subject);
          if inter != "" {
            var conv, known := convOf.Get(inter);
            if known { plan := Upsert(conv); }
          }
        case _ => return Ignore;
      }
      if plan.Skip? {
        stats := stats.(skipped := stats.skipped + 1);
      } else {
        Write(writeOk);
      }
    }

    /** One turn of the worker's loop on a non-empty queue. */
    method RunOnce(writeOk: bool)
      requires Valid() && worker.Idle? && queue != []
      modifies this, convOf, convOf.order
      ensures Valid()
      ensures Abs() == ProjectedBy(Taken(old(Abs())), writeOk)
    {
      var env := queue[0];
      queue := queue[1..];
      var plan := ProjectOne(env, writeOk);
      log := log.(done := log.done + [Done(env, plan, writeOk)]);
    }
  }
}
