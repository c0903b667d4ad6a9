/** The decision in terms of the agents themselves: who is assigned, who is ranked
    where, and what a candidate's fields say. */
module RoutingOutcome {
  import opened Lists
  import opened Ordering
  import opened Routing

  // ---- the order of ids ----

  /** a and b agree on n characters, and then a ends or has the smaller one. */
  predicate DiffersAt(a: string, b: string, n: int) {
    && 0 <= n <= |a| && n < |b| && a[..n] == b[..n]
    && (n == |a| || a[n] < b[n])
  }

  /** Ids are compared as in a dictionary. */
  lemma {:induction false} LessMeans(a: string, b: string)
    ensures Less(a, b) <==> exists n :: DiffersAt(a, b, n)
    decreases |a|
  {
    if a == [] || b == [] {
      if b != [] { assert DiffersAt(a, b, 0); }
    } else if a[0] != b[0] {
      if a[0] < b[0] { assert DiffersAt(a, b, 0); }
      forall n | DiffersAt(a, b, n) ensures a[0] < b[0] {
        if n > 0 { assert a[..n][0] == b[..n][0]; }
      }
    } else {
      LessMeans(a[1..], b[1..]);
      if n :| DiffersAt(a[1..], b[1..], n) {
        assert a[..n + 1] == [a[0]] + a[1..][..n] && b[..n + 1] == [b[0]] + b[1..][..n];
        assert DiffersAt(a, b, n + 1);
      }
      if n :| DiffersAt(a, b, n) {
        assert n > 0;
        assert a[1..][..n - 1] == a[..n][1..] && b[1..][..n - 1] == b[..n][1..];
        assert DiffersAt(a[1..], b[1..], n - 1);
      }
    }
  }

  // ---- agents ----

  /** Not pinned to a queue other than the request's. */
  predicate InQueue(req: Request, a: Agent) {
    req.queueId == "" || a.queueId == "" || a.queueId == req.queueId
  }

  function CandidateOf(req: Request, a: Agent, on: map<string, bool>): Candidate {
    Scored(req, a, IsAvailable(on, a.id))
  }

  ghost predicate Qualifies(req: Request, agents: seq<Agent>, on: map<string, bool>, i: int) {
    && 0 <= i < |agents| && InQueue(req, agents[i]) && agents[i].id in on && on[agents[i].id]
    && Eligible(req, CandidateOf(req, agents[i], on))
  }

  /** x scores more than y, or as much with the smaller id. */
  predicate Beats(x: Candidate, y: Candidate) {
    x.score > y.score || (x.score == y.score && Less(x.agentId, y.agentId))
  }

  ghost predicate Best(req: Request, agents: seq<Agent>, on: map<string, bool>, i: int) {
    && Qualifies(req, agents, on, i)
    && forall j | Qualifies(req, agents, on, j) && j != i ::
         Beats(CandidateOf(req, agents[i], on), CandidateOf(req, agents[j], on))
  }

  lemma QualifiedCandidates(req: Request, agents: seq<Agent>, on: map<string, bool>, c: Candidate)
    ensures c in Candidates(req, agents, on) && Eligible(req, c) <==>
            exists i :: Qualifies(req, agents, on, i) && c == CandidateOf(req, agents[i], on)
  {
    CandidatesMean(req, agents, on);
    if c in Candidates(req, agents, on) && Eligible(req, c) {
      var i :| FromAgent(req, agents, on, c, i);
      assert Qualifies(req, agents, on, i);
    }
    if i :| Qualifies(req, agents, on, i) && c == CandidateOf(req, agents[i], on) {
      assert FromAgent(req, agents, on, c, i);
    }
  }

  /** An agent is assigned if and only if it is the best of those that are available,
      in the queue and eligible. */
  lemma AssignedIffBest(req: Request, agents: seq<Agent>, on: map<string, bool>, id: string)
    requires DistinctIds(agents)
    ensures OutcomeOf(req, Ranked(req, agents, on), |on|) == Assigned(id) <==>
            exists i :: Best(req, agents, on, i) && agents[i].id == id
  {
    AssigneeIsBest(req, agents, on);
    var best := FirstEligible(req, Ranked(req, agents, on));
    if best.Some? {
      QualifiedCandidates(req, agents, on, best.value);
      var i :| Qualifies(req, agents, on, i) && best.value == CandidateOf(req, agents[i], on);
      BestIsBest(req, agents, on, i);
      forall j | Best(req, agents, on, j) ensures j == i { OneBest(req, agents, on, i, j); }
    } else {
      forall j | Best(req, agents, on, j) ensures false {
        var c := CandidateOf(req, agents[j], on);
        QualifiedCandidates(req, agents, on, c);
      }
    }
  }

  lemma BestIsBest(req: Request, agents: seq<Agent>, on: map<string, bool>, i: int)
    requires DistinctIds(agents) && Qualifies(req, agents, on, i)
    requires
      var c := CandidateOf(req, agents[i], on);
      forall d | d in Candidates(req, agents, on) && Eligible(req, d) && d != c :: Before(c, d)
    ensures Best(req, agents, on, i)
  {
    forall j | Qualifies(req, agents, on, j) && j != i
      ensures Beats(CandidateOf(req, agents[i], on), CandidateOf(req, agents[j], on))
    {
      QualifiedCandidates(req, agents, on, CandidateOf(req, agents[j], on));
      assert agents[i].id != agents[j].id;
    }
  }

  lemma OneBest(req: Request, agents: seq<Agent>, on: map<string, bool>, i: int, j: int)
    requires Best(req, agents, on, i) && Best(req, agents, on, j)
    ensures i == j
  {
    if i != j {
      var x, y := CandidateOf(req, agents[i], on), CandidateOf(req, agents[j], on);
      assert Beats(x, y) && Beats(y, x);
      LessAsymmetric(x.agentId, y.agentId);
    }
  }

  /** Nobody qualifying means queueing, as long as anybody at all is known. */
  lemma QueuedOrNobody(req: Request, agents: seq<Agent>, on: map<string, bool>)
    requires DistinctIds(agents)
    ensures
      var outcome := OutcomeOf(req, Ranked(req, agents, on), |on|);
      && (outcome.Assigned? <==> exists i :: Qualifies(req, agents, on, i))
      && (outcome.NoAgent? <==> on == map[] && forall i | 0 <= i < |agents| :: !InQueue(req, agents[i]))
  {
    AssigneeIsBest(req, agents, on);
    forall c ensures c in Candidates(req, agents, on) && Eligible(req, c) <==>
                     exists i :: Qualifies(req, agents, on, i) && c == CandidateOf(req, agents[i], on) {
      QualifiedCandidates(req, agents, on, c);
    }
    CandidatesMean(req, agents, on);
    var cs := Candidates(req, agents, on);
    if cs != [] {
      assert cs[0] in cs;
      var i :| FromAgent(req, agents, on, cs[0], i);
      assert InQueue(req, agents[i]);
    }
    forall i | 0 <= i < |agents| && InQueue(req, agents[i]) ensures cs != [] {
      assert FromAgent(req, agents, on, CandidateOf(req, agents[i], on), i);
      assert CandidateOf(req, agents[i], on) in cs;
    }
  }

  /** The list of candidates shows everybody in the queue once, best first. */
  lemma RankedDescends(req: Request, agents: seq<Agent>, on: map<string, bool>)
    requires DistinctIds(agents)
    ensures
      var ranked := Ranked(req, agents, on);
      && (forall i, j | 0 <= i < j < |ranked| :: Beats(ranked[i], ranked[j]))
      && (forall i | 0 <= i < |agents| && InQueue(req, agents[i]) :: CandidateOf(req, agents[i], on) in ranked)
      && (forall c | c in ranked ::
            exists i :: 0 <= i < |agents| && InQueue(req, agents[i]) && c == CandidateOf(req, agents[i], on))
  {
    var cs, ranked := Candidates(req, agents, on), Ranked(req, agents, on);
    BeforeIsStrict();
    CandidatesDecided(req, agents, on);
    SortAscends(Before, cs);
    SortMembers(Before, cs);
    CandidatesMean(req, agents, on);
    forall i | 0 <= i < |agents| && InQueue(req, agents[i]) ensures CandidateOf(req, agents[i], on) in ranked {
      assert FromAgent(req, agents, on, CandidateOf(req, agents[i], on), i);
    }
    forall c | c in ranked
      ensures exists i :: 0 <= i < |agents| && InQueue(req, agents[i]) && c == CandidateOf(req, agents[i], on)
    {
      var i :| FromAgent(req, agents, on, c, i);
      assert InQueue(req, agents[i]);
    }
    forall i, j | 0 <= i < j < |ranked| ensures Beats(ranked[i], ranked[j]) { assert Before(ranked[i], ranked[j]); }
  }

  /** A candidate shows the required skills its agent has, each once, in order of name. */
  lemma CandidateMeans(req: Request, a: Agent, available: bool)
    ensures
      var c := Scored(req, a, available);
      && c.agentId == a.id && c.displayName == a.displayName && c.available == available
      && (c.language <==> req.language == "" || a.language == "" || req.language == a.language)
      && (forall k :: k in c.matchedSkills <==> k in req.requiredSkills && k in a.skills)
      && (forall i, j | 0 <= i < j < |c.matchedSkills| :: Less(c.matchedSkills[i], c.matchedSkills[j]))
  {
    var matched := Matched(req.requiredSkills, a.skills);
    MatchedMeans(req.requiredSkills, a.skills);
    LessIsStrict();
    LessDecides(matched);
    SortAscends(Less, matched);
    SortMembers(Less, matched);
  }
}
