/** What every run of the indexer keeps: each envelope is accounted for, an id has
    at most one effect within the dedupe window, and a touch of an interaction
    lands on the conversation its latest projected creation named. */
module IndexerSafety {
  import opened Counting
  import opened Facts
  import RingMap
  import opened Indexer

  ghost function Ids(q: seq<Envelope>): (ids: seq<string>)
    ensures |ids| == |q|
    ensures forall i | 0 <= i < |q| :: ids[i] == q[i].id
  {
    seq(|q|, i requires 0 <= i < |q| => q[i].id)
  }

  ghost function Envs(q: seq<Done>): (es: seq<Envelope>)
    ensures |es| == |q|
    ensures forall i | 0 <= i < |q| :: es[i] == q[i].env
  {
    seq(|q|, i requires 0 <= i < |q| => q[i].env)
  }

  ghost function Held(w: Worker): seq<Envelope> {
    if w.Holding? then [w.env] else []
  }

  /** The links taught by the events projected so far, oldest first. */
  ghost function Lessons(q: seq<Done>): seq<RingMap.Pair>
    decreases |q|
  {
    if q == [] then []
    else
      var taught := Lesson(q[|q| - 1].env);
      Lessons(q[..|q| - 1]) + (if taught.Some? then [taught.value] else [])
  }

  // ---- the invariant ----

  ghost function Tally(q: seq<Done>): Stats
    decreases |q|
  {
    if q == [] then Stats(0, 0, 0, 0, 0)
    else Counted(Tally(q[..|q| - 1]), q[|q| - 1].plan, q[|q| - 1].ok)
  }

  /** The five counters say how many envelopes took each way out. */
  ghost predicate Counters(s: State) {
    && s.stats == Tally(s.log.done).(dropped := |s.log.shed|, deduped := |s.log.replays|)
    && forall i | 0 <= i < |s.log.done| :: !s.log.done[i].plan.Ignore?
  }

  ghost predicate AllProjected(q: seq<Envelope>) {
    forall e | e in q :: Projected(e.topic)
  }

  /** The queue is a queue: what the worker got is what was enqueued first. */
  ghost predicate Fifo(c: Config, s: State) {
    && s.log.enqueued == Envs(s.log.done) + Held(s.worker) + s.queue
    && |s.queue| <= c.queueCap
    && AllProjected(s.offers) && AllProjected(s.log.enqueued)
  }

  ghost predicate Split(log: Log, offers: seq<Envelope>, e: Envelope) {
    Count(log.accepted, e) ==
    Count(log.replays, e) + Count(log.shed, e) + Count(offers, e) + Count(log.enqueued, e)
  }

  ghost predicate Balanced(s: State, e: Envelope) {
    Split(s.log, s.offers, e)
  }

  /** The ids let through by the dedupe, wherever they are now. */
  ghost function Through(s: State, id: string): nat {
    Count(Ids(s.log.shed), id) + Count(Ids(s.offers), id) + Count(Ids(s.log.enqueued), id)
  }

  ghost predicate Deduped(c: Config, s: State) {
    && ConfigOk(c)
    && s.seen == RingMap.AddAll(c.ringCap, Ids(s.log.accepted))
    && forall id :: Count(RingMap.Arrivals(c.ringCap, Ids(s.log.accepted)), id) == Through(s, id)
  }

  /** Each event was handled by what the events before it had taught. */
  ghost predicate Taught(c: Config, s: State) {
    && ConfigOk(c)
    && s.convOf == RingMap.SetAll(c.ringCap, Lessons(s.log.done))
    && forall i | 0 <= i < |s.log.done| :: FollowsHistory(c.ringCap, s.log.done, i)
  }

  ghost predicate Inv(c: Config, s: State) {
    && Counters(s) && Fifo(c, s) && Deduped(c, s) && Taught(c, s)
    && (forall e :: Balanced(s, e))
    && |s.log.accepted| == |s.log.replays| + |s.log.shed| + |s.offers| + |s.log.enqueued|
  }

  // ---- each step keeps it ----

  lemma IdsSnoc(q: seq<Envelope>, e: Envelope)
    ensures Ids(q + [e]) == Ids(q) + [e.id]
  {
  }

  lemma IdsConcat(a: seq<Envelope>, b: seq<Envelope>)
    ensures Ids(a + b) == Ids(a) + Ids(b)
  {
  }

  lemma IdsTake(q: seq<Envelope>, i: nat)
    requires i < |q|
    ensures Ids(q[..i] + q[i + 1..]) == Ids(q)[..i] + Ids(q)[i + 1..]
  {
  }

  lemma ArriveDeduped(c: Config, s: State, env: Envelope)
    requires Deduped(c, s) && Sized(s)
    ensures Deduped(c, Arrived(c, s, env))
  {
    var t := Arrived(c, s, env);
    if t != s {
      var ids := Ids(s.log.accepted);
      IdsSnoc(s.log.accepted, env);
      assert (ids + [env.id])[..|ids|] == ids;
      RingMap.ReplayIffRemembered(c.ringCap, ids, env.id);
      IdsSnoc(s.offers, env);
      forall id
        ensures Count(RingMap.Arrivals(c.ringCap, Ids(t.log.accepted)), id) == Through(t, id)
      {
        CountAdd(RingMap.Arrivals(c.ringCap, ids), env.id, id);
        CountAdd(Ids(s.offers), env.id, id);
      }
    }
  }

  lemma ArriveBalanced(c: Config, s: State, env: Envelope, e: Envelope)
    requires Balanced(s, e) && Sized(s)
    ensures Balanced(Arrived(c, s, env), e)
  {
    CountAdd(s.log.accepted, env, e);
    if env.id in s.seen.m {
      CountAdd(s.log.replays, env, e);
    } else {
      CountAdd(s.offers, env, e);
    }
  }

  lemma OfferDeduped(c: Config, s: State, i: nat)
    requires Deduped(c, s) && i < |s.offers|
    ensures Deduped(c, Offered(c, s, i))
  {
    var t := Offered(c, s, i);
    var env := s.offers[i];
    IdsTake(s.offers, i);
    IdsSnoc(s.log.enqueued, env);
    IdsSnoc(s.log.shed, env);
    forall id
      ensures Count(RingMap.Arrivals(c.ringCap, Ids(t.log.accepted)), id) == Through(t, id)
    {
      CountTake(Ids(s.offers), i, id);
      CountAdd(Ids(s.log.enqueued), env.id, id);
      CountAdd(Ids(s.log.shed), env.id, id);
    }
  }

  lemma OfferBalanced(c: Config, s: State, i: nat, e: Envelope)
    requires Balanced(s, e) && i < |s.offers|
    ensures Balanced(Offered(c, s, i), e)
  {
    CountTake(s.offers, i, e);
    if |s.queue| < c.queueCap {
      CountAdd(s.log.enqueued, s.offers[i], e);
    } else {
      CountAdd(s.log.shed, s.offers[i], e);
    }
  }

  lemma LessonsSnoc(q: seq<Done>, d: Done)
    ensures Lessons(q + [d]) ==
            if Lesson(d.env).Some? then Lessons(q) + [Lesson(d.env).value] else Lessons(q)
  {
    assert (q + [d])[..|q|] == q;
  }

  lemma LearnSnoc(cap: nat, q: seq<Done>, d: Done)
    requires cap > 0
    ensures Learn(RingMap.SetAll(cap, Lessons(q)), d.env) == RingMap.SetAll(cap, Lessons(q + [d]))
  {
    LessonsSnoc(q, d);
    var was, taught := Lessons(q), Lesson(d.env);
    if taught.Some? { assert (was + [taught.value])[..|was|] == was; }
  }

  ghost predicate FollowsHistory(cap: nat, q: seq<Done>, i: nat)
    requires cap > 0 && i < |q|
  {
    q[i].plan == PlanFor(RingMap.SetAll(cap, Lessons(q[..i])).m, q[i].env)
  }

  lemma ProjectTaught(c: Config, s: State, ok: bool)
    requires Taught(c, s) && s.worker.Holding? && Sized(s)
    ensures Taught(c, ProjectedBy(s, ok))
  {
    var q, q' := s.log.done, ProjectedBy(s, ok).log.done;
    LearnSnoc(c.ringCap, q, q'[|q|]);
    forall i | 0 <= i < |q'|
      ensures FollowsHistory(c.ringCap, q', i)
    {
      if i < |q| {
        assert FollowsHistory(c.ringCap, q, i);
        assert q'[..i] == q[..i];
      } else {
        assert q'[..i] == q;
      }
    }
  }

  lemma TallySnoc(q: seq<Done>, d: Done)
    ensures Tally(q + [d]) == Counted(Tally(q), d.plan, d.ok)
  {
    assert (q + [d])[..|q|] == q;
  }

  lemma EnvsSnoc(q: seq<Done>, d: Done, queue: seq<Envelope>)
    ensures Envs(q + [d]) == Envs(q) + [d.env]
    ensures Envs(q) + [d.env] + queue == Envs(q + [d]) + [] + queue
  {
    assert Envs(q + [d]) == Envs(q) + [d.env];
    assert Envs(q) + [d.env] + [] == Envs(q) + [d.env];
  }

  lemma ProjectCounters(c: Config, s: State, ok: bool)
    requires Counters(s) && s.worker.Holding? && Sized(s) && Projected(s.worker.env.topic)
    ensures Counters(ProjectedBy(s, ok))
  {
    TallySnoc(s.log.done, Done(s.worker.env, PlanFor(s.convOf.m, s.worker.env), ok));
  }

  lemma ProjectCounts(c: Config, s: State, ok: bool)
    requires Counters(s) && Fifo(c, s) && s.worker.Holding? && Sized(s)
    ensures Counters(ProjectedBy(s, ok)) && Fifo(c, ProjectedBy(s, ok))
  {
    assert s.log.enqueued[|s.log.done|] == s.worker.env;
    ProjectCounters(c, s, ok);
    EnvsSnoc(s.log.done, Done(s.worker.env, PlanFor(s.convOf.m, s.worker.env), ok), s.queue);
  }

  lemma TakeFifo(c: Config, s: State)
    requires Fifo(c, s) && s.worker.Idle? && s.queue != []
    ensures Fifo(c, Taken(s))
  {
    var d := Envs(s.log.done);
    assert d + [] + s.queue == d + [s.queue[0]] + s.queue[1..];
  }

  lemma ArriveFifo(c: Config, s: State, env: Envelope)
    requires Fifo(c, s) && Sized(s)
    ensures Fifo(c, Arrived(c, s, env))
  {
  }

  lemma OfferFifo(c: Config, s: State, i: nat)
    requires Fifo(c, s) && i < |s.offers|
    ensures Fifo(c, Offered(c, s, i))
  {
    var d, h := Envs(s.log.done), Held(s.worker);
    assert d + h + s.queue + [s.offers[i]] == d + h + (s.queue + [s.offers[i]]);
    assert s.offers[i] in s.offers;
  }

  lemma ArriveKeepsInv(c: Config, s: State, env: Envelope)
    requires Inv(c, s) && Sized(s)
    ensures Inv(c, Arrived(c, s, env))
  {
    var t := Arrived(c, s, env);
    ArriveDeduped(c, s, env);
    ArriveFifo(c, s, env);
    assert Taught(c, t) && Counters(t);
    forall e ensures Balanced(t, e) { ArriveBalanced(c, s, env, e); }
  }

  lemma OfferKeepsInv(c: Config, s: State, i: nat)
    requires Inv(c, s) && i < |s.offers|
    ensures Inv(c, Offered(c, s, i))
  {
    var t := Offered(c, s, i);
    OfferDeduped(c, s, i);
    OfferFifo(c, s, i);
    assert Taught(c, t) && Counters(t);
    forall e ensures Balanced(t, e) { OfferBalanced(c, s, i, e); }
  }

  /** A step of the worker leaves the arrivals alone. */
  lemma WorkerKeepsArrivals(c: Config, s: State, t: State)
    requires Inv(c, s) && t.seen == s.seen && t.offers == s.offers
    requires t.log == s.log.(done := t.log.done)
    ensures Deduped(c, t) && forall e :: Balanced(t, e)
  {
    forall e ensures Balanced(t, e) { assert Balanced(s, e); }
    forall id
      ensures Count(RingMap.Arrivals(c.ringCap, Ids(t.log.accepted)), id) == Through(t, id)
    {
      assert Count(RingMap.Arrivals(c.ringCap, Ids(s.log.accepted)), id) == Through(s, id);
    }
  }

  lemma StepKeepsInv(c: Config, s: State, a: Action)
    requires Inv(c, s) && Enabled(s, a)
    ensures Inv(c, Apply(c, s, a))
  {
    match a {
      case Arrive(env) => ArriveKeepsInv(c, s, env);
      case Offer(i) => OfferKeepsInv(c, s, i);
      case Take =>
        TakeFifo(c, s);
        WorkerKeepsArrivals(c, s, Taken(s));
      case Project(ok) =>
        ProjectTaught(c, s, ok);
        ProjectCounts(c, s, ok);
        WorkerKeepsArrivals(c, s, ProjectedBy(s, ok));
      case Quit => WorkerKeepsArrivals(c, s, Apply(c, s, a));
      case WorkerLeaves => WorkerKeepsArrivals(c, s, Apply(c, s, a));
    }
  }

  lemma {:induction false} RunKeepsInv(c: Config, s: State, acts: seq<Action>, t: State)
    requires Inv(c, s) && Reaches(c, s, acts, t)
    ensures Inv(c, t)
    decreases |acts|
  {
    if acts != [] {
      StepKeepsInv(c, s, acts[0]);
      RunKeepsInv(c, Apply(c, s, acts[0]), acts[1..], t);
    }
  }

  lemma InitInv(c: Config)
    requires ConfigOk(c)
    ensures Inv(c, Init(c))
  {
    assert Ids([]) == [];
  }

  // ---- the promises ----

  lemma {:induction false} TallySums(q: seq<Done>)
    requires forall i | 0 <= i < |q| :: !q[i].plan.Ignore?
    ensures var t := Tally(q);
            t.indexed + t.failed + t.skipped == |q| && t.dropped == 0 && t.deduped == 0
    decreases |q|
  {
    if q != [] { TallySums(q[..|q| - 1]); }
  }

  /** Nothing is lost track of: every projected envelope handled by a configured
      indexer was deduped, dropped, indexed, failed, skipped, or is still between
      the dedupe and the queue, queued, or in the worker's hands. */
  lemma Conservation(c: Config, acts: seq<Action>, t: State)
    requires ConfigOk(c) && Reaches(c, Init(c), acts, t)
    ensures |t.log.accepted| ==
            t.stats.deduped + t.stats.dropped + |t.offers| + |t.queue| + |Held(t.worker)|
            + t.stats.indexed + t.stats.failed + t.stats.skipped
    ensures |t.queue| <= c.queueCap
  {
    InitInv(c);
    RunKeepsInv(c, Init(c), acts, t);
    TallySums(t.log.done);
  }

  /** The same for each single envelope, not just in total. */
  lemma ConservationEach(c: Config, acts: seq<Action>, t: State, e: Envelope)
    requires ConfigOk(c) && Reaches(c, Init(c), acts, t)
    ensures Count(t.log.accepted, e) ==
            Count(t.log.replays, e) + Count(t.log.shed, e) + Count(t.offers, e)
            + Count(t.queue, e) + Count(Held(t.worker), e) + Count(Envs(t.log.done), e)
  {
    InitInv(c);
    RunKeepsInv(c, Init(c), acts, t);
    assert Balanced(t, e);
    CountConcat(Envs(t.log.done) + Held(t.worker), t.queue, e);
    CountConcat(Envs(t.log.done), Held(t.worker), e);
  }

  /** Events are projected in the order in which the queue took them. */
  lemma ProjectedInOrder(c: Config, acts: seq<Action>, t: State)
    requires ConfigOk(c) && Reaches(c, Init(c), acts, t)
    ensures Envs(t.log.done) <= t.log.enqueued
  {
    InitInv(c);
    RunKeepsInv(c, Init(c), acts, t);
  }

  ghost function EffectsOf(t: State, id: string): nat {
    Count(Ids(t.log.shed), id) + Count(Ids(Envs(t.log.done)), id)
  }

  ghost predicate Spread(h: seq<string>, gap: nat) {
    forall i, j | 0 <= i < j < |h| && h[i] == h[j] :: j - i > gap
  }

  /** The length a list needs to hold k occurrences more than gap apart. */
  ghost function Span(k: nat, gap: nat): nat {
    if k <= 1 then k else Span(k - 1, gap) + gap + 1
  }

  lemma {:induction false} SpanClosedForm(k: nat, gap: nat)
    requires k >= 1
    ensures Span(k, gap) == (k - 1) * (gap + 1) + 1
  {
    if k > 1 {
      SpanClosedForm(k - 1, gap);
      assert (k - 1) * (gap + 1) == (k - 2) * (gap + 1) + (gap + 1);
    }
  }

  lemma {:induction false} SpanMonotone(a: nat, b: nat, gap: nat)
    requires a <= b
    ensures Span(a, gap) <= Span(b, gap)
    decreases b
  {
    if a < b { SpanMonotone(a, b - 1, gap); }
  }

  lemma {:induction false} SpreadCount(h: seq<string>, gap: nat, id: string)
    requires Spread(h, gap)
    ensures Span(Count(h, id), gap) <= |h|
    decreases |h|
  {
    if h == [] {
    } else if h[0] != id {
      SpreadTail(h, gap, 1);
      SpreadCount(h[1..], gap, id);
    } else if Count(h[1..], id) > 0 {
      var j := NextOccurrence(h, 1, id);
      SpreadTail(h, gap, j);
      SpreadCount(h[j..], gap, id);
      assert h[0] == h[j];
    }
  }

  lemma SpreadTail(h: seq<string>, gap: nat, i: nat)
    requires Spread(h, gap) && i <= |h|
    ensures Spread(h[i..], gap)
  {
  }

  /** The next place from i on where id stands. */
  lemma {:induction false} NextOccurrence(h: seq<string>, i: nat, id: string) returns (j: nat)
    requires i <= |h| && Count(h[i..], id) >= 1
    ensures i <= j < |h| && h[j] == id && Count(h[j..], id) == Count(h[i..], id)
    decreases |h| - i
  {
    if h[i] == id {
      j := i;
    } else {
      assert h[i..][1..] == h[i + 1..];
      j := NextOccurrence(h, i + 1, id);
    }
  }

  /** An id takes effect, by being shed or projected, at most once within the
      dedupe window: k effects of one id need Span(k, ringCap), which is
      (k - 1) * (ringCap + 1) + 1, fresh arrivals. In particular a replay of an event the full queue
      shed is not projected until as many fresh ids as the ring holds have come. */
  lemma OneEffectPerWindow(c: Config, acts: seq<Action>, t: State, id: string)
    requires ConfigOk(c) && Reaches(c, Init(c), acts, t)
    ensures Span(EffectsOf(t, id), c.ringCap) <= |RingMap.Arrivals(c.ringCap, Ids(t.log.accepted))|
    ensures id == "" ==> EffectsOf(t, id) <= 1
  {
    EffectsInRun(c, acts, t, id);
    ArrivalsBound(c.ringCap, Ids(t.log.accepted), id, EffectsOf(t, id));
  }

  lemma ArrivalsBound(cap: nat, ids: seq<string>, id: string, n: nat)
    requires cap > 0 && n <= Count(RingMap.Arrivals(cap, ids), id)
    ensures Span(n, cap) <= |RingMap.Arrivals(cap, ids)|
    ensures id == "" ==> n <= 1
  {
    var h := RingMap.Arrivals(cap, ids);
    ArrivalsSpread(cap, ids);
    SpreadCount(h, cap, id);
    SpanMonotone(n, Count(h, id), cap);
    if id == "" && Count(h, id) >= 2 {
      Twice(h, id);
      assert false;
    }
  }

  lemma ArrivalsSpread(cap: nat, ids: seq<string>)
    requires cap > 0
    ensures Spread(RingMap.Arrivals(cap, ids), cap)
    ensures forall i, j | 0 <= i < j < |RingMap.Arrivals(cap, ids)| ::
              RingMap.Arrivals(cap, ids)[i] == "" ==> RingMap.Arrivals(cap, ids)[j] != ""
  {
    var h := RingMap.Arrivals(cap, ids);
    forall i, j | 0 <= i < j < |h| && h[i] == h[j]
      ensures j - i > cap && h[i] != ""
    {
      RingMap.FreshAgainLate(cap, ids, i, j);
    }
  }

  lemma QueueCount(done: seq<Envelope>, held: seq<Envelope>, queue: seq<Envelope>, id: string)
    ensures Count(Ids(done), id) <= Count(Ids(done + held + queue), id)
  {
    assert done + held + queue == done + (held + queue);
    IdsConcat(done, held + queue);
    CountConcat(Ids(done), Ids(held + queue), id);
  }

  lemma EffectsInRun(c: Config, acts: seq<Action>, t: State, id: string)
    requires ConfigOk(c) && Reaches(c, Init(c), acts, t)
    ensures EffectsOf(t, id) <= Count(RingMap.Arrivals(c.ringCap, Ids(t.log.accepted)), id)
  {
    InitInv(c);
    RunKeepsInv(c, Init(c), acts, t);
    assert Deduped(c, t) && Fifo(c, t);
    QueueCount(Envs(t.log.done), Held(t.worker), t.queue, id);
    assert Count(RingMap.Arrivals(c.ringCap, Ids(t.log.accepted)), id) == Through(t, id);
  }

  lemma Twice(h: seq<string>, id: string)
    requires Count(h, id) >= 2
    ensures exists i, j :: 0 <= i < j < |h| && h[i] == h[j] == id
  {
    assert h[0..] == h;
    var i := NextOccurrence(h, 0, id);
    assert h[i..][1..] == h[i + 1..];
    var j := NextOccurrence(h, i + 1, id);
    assert i < j;
  }

  lemma {:induction false} LessonsNamed(q: seq<Done>)
    ensures RingMap.Named(Lessons(q))
    decreases |q|
  {
    if q != [] { LessonsNamed(q[..|q| - 1]); }
  }

  predicate Touch(t: Topic) {
    t.InteractionUpdated? || t.InteractionAssigned? || t.InteractionCompleted?
  }

  /** Where a touch goes, given the links taught before it. */
  ghost function PlanByHistory(cap: nat, before: seq<RingMap.Pair>, inter: string): Plan {
    if inter in RingMap.Last(RingMap.Arrivals(cap, RingMap.Keys(before)), cap)
    then Upsert(RingMap.LatestFor(before, inter)) else Skip
  }

  lemma TouchByHistory(cap: nat, before: seq<RingMap.Pair>, env: Envelope)
    requires cap > 0 && RingMap.Named(before) && Touch(env.topic) && InteractionOf(env) != ""
    ensures PlanFor(RingMap.SetAll(cap, before).m, env) == PlanByHistory(cap, before, InteractionOf(env))
  {
    RingMap.GetFindsLatest(cap, before, InteractionOf(env));
  }

  /** An update, assignment or completion is written exactly when its interaction
      is among the last ringCap fresh ones whose creation was projected before it,
      and it goes to the conversation the latest such creation named. Whether
      those creations' own writes succeeded does not matter. */
  lemma TouchFollowsCreation(c: Config, acts: seq<Action>, t: State, i: nat)
    requires ConfigOk(c) && Reaches(c, Init(c), acts, t)
    requires i < |t.log.done| && Touch(t.log.done[i].env.topic) && InteractionOf(t.log.done[i].env) != ""
    ensures t.log.done[i].plan ==
            PlanByHistory(c.ringCap, Lessons(t.log.done[..i]), InteractionOf(t.log.done[i].env))
  {
    InitInv(c);
    RunKeepsInv(c, Init(c), acts, t);
    assert FollowsHistory(c.ringCap, t.log.done, i);
    LessonsNamed(t.log.done[..i]);
    TouchByHistory(c.ringCap, Lessons(t.log.done[..i]), t.log.done[i].env);
  }
}
