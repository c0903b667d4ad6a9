/** What the indexer's plans, counters and drops mean in terms of the events: which
    conversation an event is written to, what each counter counts, and that an event
    is dropped only when the queue is full. */
module IndexerMeaning {
  import opened Facts
  import RingMap
  import opened Indexer
  import opened IndexerSafety
  import opened Wrappers

  // ---- plans ----

  /** The event names its subject under a data key, or failing that in its envelope. */
  predicate Names(env: Envelope, key: string, name: string) {
    name != ""
    && if key in env.data && env.data[key].Text? && env.data[key].text != ""
       then env.data[key] == Text(name) else env.subject == name
  }

  /** An opened or closed conversation is written under its own name; a creation under
      the conversation its data names, which the subject cannot stand in for; and
      what names nothing is skipped. */
  lemma PlanMeans(links: map<string, string>, env: Envelope, conv: string)
    ensures env.topic.ConversationOpened? || env.topic.ConversationClosed? ==>
              (PlanFor(links, env) == Upsert(conv) <==> Names(env, "conversation_id", conv))
    ensures env.topic.InteractionCreated? ==>
              (PlanFor(links, env) == Upsert(conv) <==>
               conv != "" && "conversation_id" in env.data && env.data["conversation_id"] == Text(conv)
               && exists inter :: Names(env, "interaction_id", inter))
    ensures Touch(env.topic) ==>
              (PlanFor(links, env) == Upsert(conv) <==>
               exists inter :: Names(env, "interaction_id", inter) && inter in links && links[inter] == conv)
  {
    if InteractionOf(env) != "" {
      assert Names(env, "interaction_id", InteractionOf(env));
    }
  }

  /** The topics let through are exactly those that have a plan. */
  lemma ProjectedIffPlanned(links: map<string, string>, env: Envelope)
    ensures Projected(env.topic) <==> !PlanFor(links, env).Ignore?
    ensures Projected(env.topic) <==>
              env.topic.ConversationOpened? || env.topic.ConversationClosed?
              || env.topic.InteractionCreated? || Touch(env.topic)
  {
  }

  /** A creation teaches its conversation to the touches of its interaction, whatever
      the ring held before and however the two events name the interaction. */
  lemma CreationTeachesTouch(r: RingMap.Ring, created: Envelope, touch: Envelope, inter: string, conv: string)
    requires |r.slots| > 0 && created.topic.InteractionCreated? && Touch(touch.topic) && conv != ""
    requires "conversation_id" in created.data && created.data["conversation_id"] == Text(conv)
    requires Names(created, "interaction_id", inter) && Names(touch, "interaction_id", inter)
    ensures PlanFor(r.m, created) == Upsert(conv) && PlanFor(Learn(r, created).m, touch) == Upsert(conv)
  {
  }

  /** Only a creation that names both teaches anything. */
  lemma OthersTeachNothing(r: RingMap.Ring, env: Envelope)
    requires |r.slots| > 0
    ensures Learn(r, env) == r ||
            (env.topic.InteractionCreated? && TextAt(env.data, "conversation_id") != ""
             && exists inter :: Names(env, "interaction_id", inter))
  {
    if Lesson(env).Some? { assert Names(env, "interaction_id", InteractionOf(env)); }
  }

  // ---- counters ----

  /** How many of the worker's writes were answered so. */
  ghost function Writes(q: seq<Done>, ok: bool): nat {
    if q == [] then 0
    else Writes(q[..|q| - 1], ok) + (if q[|q| - 1].plan.Upsert? && q[|q| - 1].ok == ok then 1 else 0)
  }

  ghost function Skips(q: seq<Done>): nat {
    if q == [] then 0 else Skips(q[..|q| - 1]) + (if q[|q| - 1].plan.Skip? then 1 else 0)
  }

  lemma {:induction false} TallyMeans(q: seq<Done>)
    ensures Tally(q) == Stats(Writes(q, true), 0, Writes(q, false), 0, Skips(q))
    decreases |q|
  {
    if q != [] { TallyMeans(q[..|q| - 1]); }
  }

  /** The five counters say exactly what they are named after. */
  lemma CountersMean(c: Config, acts: seq<Action>, t: State)
    requires ConfigOk(c) && Reaches(c, Init(c), acts, t)
    ensures t.stats == Stats(Writes(t.log.done, true), |t.log.shed|, Writes(t.log.done, false),
                             |t.log.replays|, Skips(t.log.done))
  {
    InitInv(c);
    RunKeepsInv(c, Init(c), acts, t);
    TallyMeans(t.log.done);
  }

  // ---- drops ----

  /** An event is dropped by an offer to a full queue and by nothing else. */
  lemma ShedOnlyWhenFull(c: Config, s: State, a: Action)
    requires Enabled(s, a)
    ensures Apply(c, s, a).log.shed ==
            s.log.shed + (if a.Offer? && |s.queue| >= c.queueCap then [s.offers[a.handler]] else [])
  {
  }

  ghost predicate FilledOnce(c: Config, s: State) {
    s.log.shed != [] ==> |s.log.enqueued| >= c.queueCap
  }

  lemma {:induction false} RunFilled(c: Config, s: State, acts: seq<Action>, t: State)
    requires Inv(c, s) && FilledOnce(c, s) && Reaches(c, s, acts, t)
    ensures FilledOnce(c, t)
    decreases |acts|
  {
    if acts != [] {
      var next := Apply(c, s, acts[0]);
      StepKeepsInv(c, s, acts[0]);
      ShedOnlyWhenFull(c, s, acts[0]);
      assert |s.log.enqueued| >= |s.queue|;
      assert FilledOnce(c, next);
      RunFilled(c, next, acts[1..], t);
    }
  }

  /** No more events than the queue holds are never dropped, however slow the worker. */
  lemma FewNeverShed(c: Config, acts: seq<Action>, t: State)
    requires ConfigOk(c) && Reaches(c, Init(c), acts, t) && |t.log.accepted| <= c.queueCap
    ensures t.log.shed == [] && t.stats.dropped == 0
  {
    InitInv(c);
    RunFilled(c, Init(c), acts, t);
    RunKeepsInv(c, Init(c), acts, t);
  }
}
