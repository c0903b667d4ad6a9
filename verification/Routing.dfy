/** The routing engine: score the agents, rank them, assign the best eligible one.
    Scores are exact reals. */
module Routing {
  import opened Arithmetic
  import opened Lists
  import opened Ordering
  import opened Wrappers

  datatype Request = Request(requiredSkills: seq<string>, language: string, priority: int, queueId: string)

  datatype Agent = Agent(id: string, displayName: string, language: string, skills: seq<string>, queueId: string)

  datatype Candidate = Candidate(
    agentId: string,
    displayName: string,
    score: real,
    matchedSkills: seq<string>,
    language: bool,
    available: bool)

  datatype Outcome = Assigned(agentId: string) | Queued | NoAgent

  datatype Decision = Decision(candidates: seq<Candidate>, outcome: Outcome)

  /** The required skills an agent has, each once, in the order required. */
  function Matched(required: seq<string>, skills: seq<string>): seq<string>
    decreases |required|
  {
    if required == [] then []
    else
      var init, last := Matched(required[..|required| - 1], skills), required[|required| - 1];
      if last in skills && last !in init then init + [last] else init
  }

  lemma {:induction false} MatchedMeans(required: seq<string>, skills: seq<string>)
    ensures forall k :: k in Matched(required, skills) <==> k in required && k in skills
    ensures Distinct(Matched(required, skills))
    ensures |Matched(required, skills)| <= |required|
    decreases |required|
  {
    if required != [] {
      var n := |required| - 1;
      MatchedMeans(required[..n], skills);
      assert required == required[..n] + [required[n]];
    }
  }

  function Coverage(required: seq<string>, matched: nat): real {
    if |required| > 0 then (matched as real) / (|required| as real) else 1.0
  }

  function LanguageFits(req: Request, a: Agent): bool {
    req.language == "" || a.language == "" || req.language == a.language
  }

  function Bonus(fits: bool): real {
    if fits then 1.0 else 0.0
  }

  function ScoreOf(req: Request, matched: nat, fits: bool): real {
    2.0 * Coverage(req.requiredSkills, matched) + 1.5 * Bonus(fits) + (req.priority as real) / 10.0
  }

  function Scored(req: Request, a: Agent, available: bool): Candidate {
    var matched := Matched(req.requiredSkills, a.skills);
    Candidate(a.id, a.displayName, ScoreOf(req, |matched|, LanguageFits(req, a)),
              StableSort(Less, matched), LanguageFits(req, a), available)
  }

  predicate Considered(req: Request, a: Agent) {
    req.queueId == "" || a.queueId == "" || a.queueId == req.queueId
  }

  function IsAvailable(available: map<string, bool>, id: string): bool {
    id in available && available[id]
  }

  function Candidates(req: Request, agents: seq<Agent>, available: map<string, bool>): seq<Candidate>
    decreases |agents|
  {
    if agents == [] then []
    else
      var init, a := Candidates(req, agents[..|agents| - 1], available), agents[|agents| - 1];
      if Considered(req, a) then init + [Scored(req, a, IsAvailable(available, a.id))] else init
  }

  predicate Before(x: Candidate, y: Candidate) {
    if x.score != y.score then x.score > y.score else Less(x.agentId, y.agentId)
  }

  function Ranked(req: Request, agents: seq<Agent>, available: map<string, bool>): seq<Candidate> {
    StableSort(Before, Candidates(req, agents, available))
  }

  /** What makes a candidate assignable. */
  predicate Eligible(req: Request, c: Candidate) {
    && c.available
    && (req.priority >= 8 && |req.requiredSkills| > 0 ==> |c.matchedSkills| >= |req.requiredSkills|)
    && c.score >= 2.0
  }

  function FirstEligible(req: Request, cs: seq<Candidate>): Option<Candidate> {
    if cs == [] then None
    else if Eligible(req, cs[0]) then Some(cs[0])
    else FirstEligible(req, cs[1..])
  }

  function OutcomeOf(req: Request, cs: seq<Candidate>, known: nat): Outcome {
    var best := FirstEligible(req, cs);
    if best.Some? then Assigned(best.value.agentId)
    else if known > 0 || |cs| > 0 then Queued
    else NoAgent
  }

  lemma ListedMatch(required: seq<string>, skills: seq<string>, matched: set<string>, ms: seq<string>)
    requires Distinct(ms) && |ms| == |matched|
    requires forall k :: k in matched <==> k in ms
    requires forall k :: k in matched <==> k in required && k in skills
    ensures |matched| == |Matched(required, skills)|
    ensures StableSort(Less, ms) == StableSort(Less, Matched(required, skills))
  {
    MatchedMeans(required, skills);
    MembersSize(Matched(required, skills), matched);
    LessIsStrict();
    LessDecides(ms);
    SortIgnoresOrder(Less, ms, Matched(required, skills));
  }

  /** The engine's own code. */
  class Engine {
    constructor () {}

    /** Agent skill by agent skill, collecting the required ones it meets. */
    method Match(required: seq<string>, skills: seq<string>) returns (matched: set<string>)
      ensures forall k :: k in matched <==> k in required && k in skills
    {
      matched := {};
      for i := 0 to |skills|
        invariant forall k :: k in matched <==> k in required && k in skills[..i]
      {
        var have := skills[i];
        assert skills[..i + 1] == skills[..i] + [have];
        for j := 0 to |required|
          invariant forall k :: k in matched <==>
                      (k in required && k in skills[..i]) || (k == have && k in required[..j])
        {
          assert required[..j + 1] == required[..j] + [required[j]];
          if have == required[j] { matched := matched + {required[j]}; }
        }
        assert required[..|required|] == required;
      }
      assert skills[..|skills|] == skills;
    }

    /** A set read out in no particular order. */
    method List(members: set<string>) returns (ms: seq<string>)
      ensures Distinct(ms) && |ms| == |members|
      ensures forall k :: k in members <==> k in ms
    {
      ms := [];
      var left := members;
      while left != {}
        invariant Distinct(ms) && |ms| + |left| == |members|
        invariant forall k :: k in members <==> k in ms || k in left
        invariant forall k | k in ms :: k !in left
        decreases |left|
      {
        var s :| s in left;
        ms := ms + [s];
        left := left - {s};
      }
    }

    method Score(req: Request, a: Agent, available: bool) returns (c: Candidate)
      ensures c == Scored(req, a, available)
    {
      var matched := Match(req.requiredSkills, a.skills);
      var ms := List(matched);
      ListedMatch(req.requiredSkills, a.skills, matched, ms);
      var lang := LanguageFits(req, a);
      var score := ScoreOf(req, |matched|, lang);
      c := Candidate(a.id, a.displayName, score, StableSort(Less, ms), lang, available);
    }

    /** The first eligible candidate in rank order is assigned. */
    method Decide(req: Request, agents: seq<Agent>, available: map<string, bool>) returns (d: Decision)
      ensures d.candidates == Ranked(req, agents, available)
      ensures d.outcome == OutcomeOf(req, d.candidates, |available|)
    {
      var cs: seq<Candidate> := [];
      for i := 0 to |agents|
        invariant cs == Candidates(req, agents[..i], available)
      {
        var a := agents[i];
        assert agents[..i + 1][..i] == agents[..i];
        if req.queueId != "" && a.queueId != "" && a.queueId != req.queueId { continue; }
        var c := Score(req, a, IsAvailable(available, a.id));
        cs := cs + [c];
      }
      assert agents[..|agents|] == agents;
      cs := StableSort(Before, cs);
      for i := 0 to |cs|
        invariant FirstEligible(req, cs) == FirstEligible(req, cs[i..])
      {
        var c := cs[i];
        assert cs[i..][1..] == cs[i + 1..];
        if !c.available { continue; }
        if req.priority >= 8 && |req.requiredSkills| > 0 && |c.matchedSkills| < |req.requiredSkills| { continue; }
        if c.score < 2.0 { continue; }
        return Decision(cs, Assigned(c.agentId));
      }
      return Decision(cs, if |available| > 0 || |cs| > 0 then Queued else NoAgent);
    }
  }

  // ---- the ranking ----

  lemma BeforeIsStrict()
    ensures StrictOrder(Before)
  {
    forall x, y | Before(x, y) ensures !Before(y, x) {
      if x.score == y.score { LessAsymmetric(x.agentId, y.agentId); }
    }
    forall x, y, z | Before(x, y) && Before(y, z) ensures Before(x, z) {
      if x.score == y.score == z.score { LessTransitive(x.agentId, y.agentId, z.agentId); }
    }
  }

  ghost predicate DistinctIds(agents: seq<Agent>) {
    forall i, j | 0 <= i < j < |agents| :: agents[i].id != agents[j].id
  }

  ghost predicate FromAgent(req: Request, agents: seq<Agent>, available: map<string, bool>, c: Candidate, i: int) {
    0 <= i < |agents| && Considered(req, agents[i])
    && c == Scored(req, agents[i], IsAvailable(available, agents[i].id))
  }

  lemma {:induction false} CandidatesMean(req: Request, agents: seq<Agent>, available: map<string, bool>)
    ensures forall c :: c in Candidates(req, agents, available) <==>
                        exists i :: FromAgent(req, agents, available, c, i)
    decreases |agents|
  {
    if agents != [] {
      var n := |agents| - 1;
      var init := agents[..n];
      CandidatesMean(req, init, available);
      forall c
        ensures c in Candidates(req, agents, available) <==> exists i :: FromAgent(req, agents, available, c, i)
      {
        forall i | FromAgent(req, init, available, c, i) ensures FromAgent(req, agents, available, c, i) {}
        forall i | FromAgent(req, agents, available, c, i) && i < n ensures FromAgent(req, init, available, c, i) {}
        if Considered(req, agents[n]) && c == Scored(req, agents[n], IsAvailable(available, agents[n].id)) {
          assert FromAgent(req, agents, available, c, n);
        }
      }
    }
  }

  lemma {:induction false} CandidatesDistinct(req: Request, agents: seq<Agent>, available: map<string, bool>)
    requires DistinctIds(agents)
    ensures forall i, j | 0 <= i < j < |Candidates(req, agents, available)| ::
              Candidates(req, agents, available)[i].agentId != Candidates(req, agents, available)[j].agentId
    ensures forall c | c in Candidates(req, agents, available) :: exists i :: 0 <= i < |agents| && agents[i].id == c.agentId
    decreases |agents|
  {
    if agents != [] {
      var n := |agents| - 1;
      CandidatesDistinct(req, agents[..n], available);
      forall c | c in Candidates(req, agents, available) ensures exists i :: 0 <= i < |agents| && agents[i].id == c.agentId {
        if c in Candidates(req, agents[..n], available) {
          var i :| 0 <= i < n && agents[..n][i].id == c.agentId;
          assert agents[i].id == c.agentId;
        } else {
          assert agents[n].id == c.agentId;
        }
      }
    }
  }

  /** The same agent, skills listed in whatever order and however often. */
  ghost predicate SameAgent(x: Agent, y: Agent) {
    x.(skills := []) == y.(skills := []) && forall k :: k in x.skills <==> k in y.skills
  }

  ghost predicate HasAgent(agents: seq<Agent>, x: Agent) {
    exists i :: 0 <= i < |agents| && SameAgent(agents[i], x)
  }

  /** One list of agents holds the other, up to the order of skills. */
  ghost predicate Covers(agents: seq<Agent>, agents': seq<Agent>) {
    forall i | 0 <= i < |agents'| :: HasAgent(agents, agents'[i])
  }

  lemma {:induction false} MatchedBySet(required: seq<string>, s: seq<string>, t: seq<string>)
    requires forall k :: k in s <==> k in t
    ensures Matched(required, s) == Matched(required, t)
    decreases |required|
  {
    if required != [] { MatchedBySet(required[..|required| - 1], s, t); }
  }

  lemma CandidateCovered(req: Request, agents: seq<Agent>, agents': seq<Agent>, available: map<string, bool>, c: Candidate)
    requires Covers(agents, agents') && c in Candidates(req, agents', available)
    ensures c in Candidates(req, agents, available)
  {
    CandidatesMean(req, agents', available);
    CandidatesMean(req, agents, available);
    var j :| FromAgent(req, agents', available, c, j);
    assert HasAgent(agents, agents'[j]);
    var i :| 0 <= i < |agents| && SameAgent(agents[i], agents'[j]);
    MatchedBySet(req.requiredSkills, agents[i].skills, agents'[j].skills);
    assert agents[i].(skills := []).id == agents'[j].(skills := []).id;
    assert FromAgent(req, agents, available, c, i);
  }

  lemma CandidatesDecided(req: Request, agents: seq<Agent>, available: map<string, bool>)
    requires DistinctIds(agents)
    ensures Distinct(Candidates(req, agents, available))
    ensures Decides(Before, Candidates(req, agents, available))
  {
    var cs := Candidates(req, agents, available);
    CandidatesDistinct(req, agents, available);
    forall x, y | x in cs && y in cs && x != y ensures Before(x, y) || Before(y, x) {
      var i :| 0 <= i < |cs| && cs[i] == x;
      var j :| 0 <= j < |cs| && cs[j] == y;
      assert x.agentId != y.agentId by { assert i != j; }
      LessTotal(x.agentId, y.agentId);
    }
  }

  /** The ranking, and with it the whole decision, depends on which agents there
      are, not on the order in which agents or their skills are listed. */
  lemma RankingIgnoresOrder(req: Request, agents: seq<Agent>, agents': seq<Agent>, available: map<string, bool>)
    requires DistinctIds(agents) && DistinctIds(agents')
    requires Covers(agents, agents') && Covers(agents', agents)
    ensures Ranked(req, agents, available) == Ranked(req, agents', available)
  {
    var cs, cs' := Candidates(req, agents, available), Candidates(req, agents', available);
    CandidatesDecided(req, agents, available);
    CandidatesDecided(req, agents', available);
    BeforeIsStrict();
    forall c ensures c in cs <==> c in cs' {
      if c in cs { CandidateCovered(req, agents', agents, available, c); }
      if c in cs' { CandidateCovered(req, agents, agents', available, c); }
    }
    SortIgnoresOrder(Before, cs, cs');
  }

  lemma CandidatesSnoc(req: Request, agents: seq<Agent>, x: Agent, on: map<string, bool>)
    requires Considered(req, x)
    ensures Candidates(req, agents + [x], on) == Candidates(req, agents, on) + [Scored(req, x, IsAvailable(on, x.id))]
  {
    assert (agents + [x])[..|agents|] == agents;
  }

  lemma RankedTwo(req: Request, x: Agent, y: Agent, on: map<string, bool>)
    requires Considered(req, x) && Considered(req, y)
    ensures
      var cx, cy := Scored(req, x, IsAvailable(on, x.id)), Scored(req, y, IsAvailable(on, y.id));
      Ranked(req, [x, y], on) == if Before(cy, cx) then [cy, cx] else [cx, cy]
  {
    var cx, cy := Scored(req, x, IsAvailable(on, x.id)), Scored(req, y, IsAvailable(on, y.id));
    CandidatesSnoc(req, [], x, on);
    CandidatesSnoc(req, [x], y, on);
    assert [] + [x] == [x] && [x] + [y] == [x, y] && [] + [cx] == [cx] && [cx] + [cy] == [cx, cy];
    SortTwo(Before, cx, cy);
  }

  /** Distinct ids are needed: two agents sharing an id are ranked alike in either
      order of listing exactly when their scores differ or nothing tells their
      candidates apart. */
  lemma SharedIdShowsListOrder(req: Request, x: Agent, y: Agent, on: map<string, bool>)
    requires Considered(req, x) && Considered(req, y) && x.id == y.id
    ensures
      var cx, cy := Scored(req, x, IsAvailable(on, x.id)), Scored(req, y, IsAvailable(on, y.id));
      Ranked(req, [x, y], on) == Ranked(req, [y, x], on) <==> cx.score != cy.score || cx == cy
  {
    var cx, cy := Scored(req, x, IsAvailable(on, x.id)), Scored(req, y, IsAvailable(on, y.id));
    RankedTwo(req, x, y, on);
    RankedTwo(req, y, x, on);
    if Less(x.id, y.id) { LessAsymmetric(x.id, y.id); }
    assert [cx, cy] == [cy, cx] <==> cx == cy by { assert [cx, cy][0] == cx && [cy, cx][0] == cy; }
  }

  // ---- the assignment ----

  lemma {:induction false} FirstEligibleMeans(req: Request, cs: seq<Candidate>)
    ensures FirstEligible(req, cs).Some? <==> exists c :: c in cs && Eligible(req, c)
    ensures FirstEligible(req, cs).Some? ==>
              exists i :: 0 <= i < |cs| && cs[i] == FirstEligible(req, cs).value && Eligible(req, cs[i])
                          && forall j | 0 <= j < i :: !Eligible(req, cs[j])
  {
    if cs != [] && !Eligible(req, cs[0]) {
      FirstEligibleMeans(req, cs[1..]);
      assert cs == [cs[0]] + cs[1..];
      if FirstEligible(req, cs).Some? {
        var i :| 0 <= i < |cs[1..]| && cs[1..][i] == FirstEligible(req, cs).value && Eligible(req, cs[1..][i])
                 && forall j | 0 <= j < i :: !Eligible(req, cs[1..][j]);
        assert cs[i + 1] == FirstEligible(req, cs).value;
        assert forall j | 0 <= j < i + 1 :: !Eligible(req, cs[j]);
      }
    }
  }

  lemma BestOfAscending(req: Request, ranked: seq<Candidate>)
    requires Ascends(Before, ranked)
    ensures
      var best := FirstEligible(req, ranked);
      && (best.Some? <==> exists c :: c in ranked && Eligible(req, c))
      && (best.Some? ==> best.value in ranked && Eligible(req, best.value)
                         && forall c | c in ranked && Eligible(req, c) && c != best.value :: Before(best.value, c))
  {
    FirstEligibleMeans(req, ranked);
    var best := FirstEligible(req, ranked);
    if best.Some? {
      var i :| 0 <= i < |ranked| && ranked[i] == best.value && Eligible(req, ranked[i])
               && forall j | 0 <= j < i :: !Eligible(req, ranked[j]);
      forall c | c in ranked && Eligible(req, c) && c != best.value ensures Before(best.value, c) {
        var j :| 0 <= j < |ranked| && ranked[j] == c;
      }
    }
  }

  /** The assignee is eligible, and every other eligible candidate scores less, or
      the same with a greater id; somebody is assigned exactly when somebody is
      eligible; and NoAgent means there was nobody at all. */
  lemma AssigneeIsBest(req: Request, agents: seq<Agent>, available: map<string, bool>)
    requires DistinctIds(agents)
    ensures
      var cs := Candidates(req, agents, available);
      var best := FirstEligible(req, Ranked(req, agents, available));
      && (best.Some? <==> exists c :: c in cs && Eligible(req, c))
      && (best.Some? ==> best.value in cs && Eligible(req, best.value)
                         && forall c | c in cs && Eligible(req, c) && c != best.value :: Before(best.value, c))
    ensures OutcomeOf(req, Ranked(req, agents, available), |available|) == NoAgent <==>
            available == map[] && Candidates(req, agents, available) == []
  {
    var cs, ranked := Candidates(req, agents, available), Ranked(req, agents, available);
    BeforeIsStrict();
    CandidatesDecided(req, agents, available);
    SortAscends(Before, cs);
    SortMembers(Before, cs);
    BestOfAscending(req, ranked);
  }

  /** More agents never turn an assignment into queueing. */
  lemma MoreAgentsStillAssign(req: Request, agents: seq<Agent>, more: seq<Agent>, available: map<string, bool>)
    requires Covers(more, agents)
    requires OutcomeOf(req, Ranked(req, agents, available), |available|).Assigned?
    ensures OutcomeOf(req, Ranked(req, more, available), |available|).Assigned?
  {
    SortMembers(Before, Candidates(req, agents, available));
    SortMembers(Before, Candidates(req, more, available));
    FirstEligibleMeans(req, Ranked(req, agents, available));
    FirstEligibleMeans(req, Ranked(req, more, available));
    var c :| c in Ranked(req, agents, available) && Eligible(req, c);
    CandidateCovered(req, more, agents, available, c);
    assert c in Ranked(req, more, available);
  }

  // ---- who is eligible ----

  ghost predicate HasAll(required: seq<string>, skills: seq<string>) {
    forall k | k in required :: k in skills
  }

  lemma {:induction false} FullMatch(required: seq<string>, skills: seq<string>)
    ensures |Matched(required, skills)| == |required| <==> HasAll(required, skills) && Distinct(required)
    decreases |required|
  {
    if required != [] {
      var n := |required| - 1;
      FullMatch(required[..n], skills);
      MatchedMeans(required[..n], skills);
      assert required == required[..n] + [required[n]];
      if HasAll(required, skills) && Distinct(required) { assert required[n] !in required[..n]; }
      if |Matched(required, skills)| == |required| { assert required[n] !in required[..n]; }
    }
  }

  lemma ScoreOfFull(req: Request, fits: bool)
    requires req.priority >= 0
    ensures ScoreOf(req, |req.requiredSkills|, fits) >= 2.0
  {
    if |req.requiredSkills| > 0 {
      assert (|req.requiredSkills| as real) / (|req.requiredSkills| as real) == 1.0;
    }
  }

  /** At priority 8 and above an agent can be assigned exactly when available and
      holding every required skill, provided the request names each skill once; a
      request naming a skill twice can then never be assigned. */
  lemma UrgentEligibility(req: Request, a: Agent, available: bool)
    requires req.priority >= 8 && |req.requiredSkills| > 0
    ensures Eligible(req, Scored(req, a, available)) <==>
            available && HasAll(req.requiredSkills, a.skills) && Distinct(req.requiredSkills)
  {
    var matched := Matched(req.requiredSkills, a.skills);
    SortMembers(Less, matched);
    MatchedMeans(req.requiredSkills, a.skills);
    FullMatch(req.requiredSkills, a.skills);
    ScoreOfFull(req, LanguageFits(req, a));
  }

  /** Multiplying a score by ten times the number of required skills. */
  lemma Scaled(m: real, n: real, bonus: real, priority: real)
    requires n > 0.0
    ensures 2.0 * (m / n) + 1.5 * bonus + priority / 10.0 >= 2.0 <==>
            20.0 * m + 15.0 * (bonus * n) + priority * n >= 20.0 * n
  {
    var x := m / n;
    var t := 2.0 * x + 1.5 * bonus + priority / 10.0 - 2.0;
    assert x * n == m;
    assert (10.0 * n) * t == 20.0 * (x * n) + 15.0 * (bonus * n) + priority * n - 20.0 * n;
    SignOfProduct(10.0 * n, t);
  }

  lemma SignOfProduct(k: real, t: real)
    requires k > 0.0
    ensures t >= 0.0 <==> k * t >= 0.0
  {
  }

  /** The same in whole numbers. */
  lemma ScoreClears(req: Request, m: nat, fits: bool)
    requires |req.requiredSkills| > 0
    ensures
      var n := |req.requiredSkills|;
      ScoreOf(req, m, fits) >= 2.0 <==> 20 * m + (if fits then 15 * n else 0) + req.priority * n >= 20 * n
  {
    var n := |req.requiredSkills|;
    Scaled(m as real, n as real, Bonus(fits), req.priority as real);
    assert (req.priority as real) * (n as real) == (req.priority * n) as real;
    assert Bonus(fits) * (n as real) == if fits then n as real else 0.0;
  }

  /** Below priority 8 missing skills do block: with m of n required skills held,
      an agent is eligible exactly when available and 20m, plus 15n if the
      language fits, plus the priority times n, reaches 20n. Without required
      skills only a negative priority can keep an available agent out. */
  lemma BestEffortEligibility(req: Request, a: Agent, available: bool)
    requires req.priority < 8 || |req.requiredSkills| == 0
    ensures
      var m, n := |Matched(req.requiredSkills, a.skills)|, |req.requiredSkills|;
      var fits := req.language == "" || a.language == "" || req.language == a.language;
      Eligible(req, Scored(req, a, available)) <==>
      available && if n > 0 then 20 * m + (if fits then 15 * n else 0) + req.priority * n >= 20 * n
                   else (if fits then 15 else 0) + req.priority >= 0
  {
    if |req.requiredSkills| > 0 {
      ScoreClears(req, |Matched(req.requiredSkills, a.skills)|, LanguageFits(req, a));
    }
  }

  lemma {:induction false} NoMatch(required: seq<string>, skills: seq<string>)
    requires forall k | k in skills :: k !in required
    ensures Matched(required, skills) == []
    decreases |required|
  {
    if required != [] { NoMatch(required[..|required| - 1], skills); }
  }

  /** So an agent with none of the required skills is eligible exactly when
      available, of a fitting language, and the priority is at least 5. */
  lemma FallbackEligibility(req: Request, a: Agent, available: bool)
    requires req.priority < 8 && |req.requiredSkills| > 0
    requires forall k | k in a.skills :: k !in req.requiredSkills
    ensures Eligible(req, Scored(req, a, available)) <==> available && LanguageFits(req, a) && req.priority >= 5
  {
    var n := |req.requiredSkills|;
    NoMatch(req.requiredSkills, a.skills);
    BestEffortEligibility(req, a, available);
    assert (req.priority + 15) * n >= 20 * n <==> req.priority + 15 >= 20 by { Cancel(req.priority + 15, 20, n); }
    assert req.priority * n >= 20 * n <==> req.priority >= 20 by { Cancel(req.priority, 20, n); }
  }

  lemma Cancel(x: int, y: int, n: int)
    requires n > 0
    ensures x * n >= y * n <==> x >= y
  {
    if x >= y { MulMonotone(y, x, n); } else { MulMonotone(x + 1, y, n); }
  }
}
