/** The gate chain in front of every tool an agent calls: context, allowlist, the
    platform's cap on the policy's limit, the rate window, the arguments, and only
    then the executor. Every decision is audited. */
module ToolGate {
  import opened Facts
  import opened Text
  import W = SlidingWindow
  import opened Wrappers

  datatype ToolCall = ToolCall(tool: string, tenantId: string, agentId: string, args: map<string, Value>)

  /** The policy source's answer: an agent's tools and their limits, or an error. */
  type Policy = Option<map<string, int>>

  datatype Verdict = NoContext | PolicyFailed | NotAllowed | RateLimited | BadArguments | ExecutionFailed | Executed

  /** The platform's own limit for a tool; others have none. */
  function PlatformCap(tool: string): Option<int> {
    match tool
    case "get_customer" => Some(5)
    case "create_case" => Some(2)
    case "send_whatsapp" => Some(1)
    case _ => None
  }

  function EffectiveLimit(tool: string, limit: int): int {
    var cap := PlatformCap(tool);
    if cap.Some? && limit > cap.value then cap.value else limit
  }

  predicate GoodField(args: map<string, Value>, field: string) {
    field in args && args[field].Text? && !Blank(args[field].text) && Bytes(args[field].text) <= 512
  }

  predicate GoodArguments(c: ToolCall) {
    match c.tool
    case "get_customer" => GoodField(c.args, "customer_id")
    case "create_case" => GoodField(c.args, "customer_id") && GoodField(c.args, "subject")
    case "send_whatsapp" =>
      GoodField(c.args, "to") && !Blank(TextAt(c.args, "body")) && Bytes(TextAt(c.args, "body")) <= 4096
    case _ => false
  }

  predicate Allowed(c: ToolCall, policy: Policy) {
    policy.Some? && c.tool in policy.value && policy.value[c.tool] > 0
  }

  /** The call gets as far as the rate window. */
  predicate ReachesWindow(c: ToolCall, policy: Policy) {
    c.tenantId != "" && c.agentId != "" && Allowed(c, policy)
  }

  function WindowCall(c: ToolCall, policy: Policy, now: int): W.Call
    requires ReachesWindow(c, policy)
  {
    W.Call(c.agentId + ":" + c.tool, EffectiveLimit(c.tool, policy.value[c.tool]), now)
  }

  predicate Admitted(w: W.Windows, c: ToolCall, policy: Policy, now: int)
    requires ReachesWindow(c, policy)
  {
    var x := WindowCall(c, policy, now);
    W.Admits(w, x.key, x.limit, now)
  }

  function After(w: W.Windows, c: ToolCall, policy: Policy, now: int): W.Windows {
    if ReachesWindow(c, policy) then W.After(w, WindowCall(c, policy, now)) else w
  }

  /** A row of the audit log. */
  datatype Audit = Audit(call: ToolCall, verdict: Verdict)

  class Gateway {
    const limiter: W.Gateway
    var audited: seq<Audit>
    /** The calls handed to the executor. */
    ghost var executed: seq<ToolCall>

    constructor ()
      ensures limiter.windows == map[] && audited == [] && executed == [] && fresh(limiter)
    {
      limiter := new W.Gateway();
      audited, executed := [], [];
    }

    method ValidateArgs(c: ToolCall) returns (ok: bool)
      ensures ok == GoodArguments(c)
    {
      match c.tool {
        case "get_customer" => return GoodField(c.args, "customer_id");
        case "create_case" =>
          if !GoodField(c.args, "customer_id") { return false; }
          return GoodField(c.args, "subject");
        case "send_whatsapp" =>
          if !GoodField(c.args, "to") { return false; }
          var body := TextAt(c.args, "body");
          if Blank(body) { return false; }
          return Bytes(body) <= 4096;
        case _ => return false;
      }
    }

    /** The gates in order; `execOk` is the executor's answer. */
    method Decide(c: ToolCall, policy: Policy, now: int, execOk: bool) returns (v: Verdict)
      modifies limiter, this`executed
      ensures limiter.windows == After(old(limiter.windows), c, policy, now)
      ensures (v.Executed? || v.ExecutionFailed?) <==>
              ReachesWindow(c, policy) && Admitted(old(limiter.windows), c, policy, now) && GoodArguments(c)
      ensures executed == if v.Executed? || v.ExecutionFailed? then old(executed) + [c] else old(executed)
      ensures v.Executed? ==> execOk
      ensures v.RateLimited? <==> ReachesWindow(c, policy) && !Admitted(old(limiter.windows), c, policy, now)
      ensures v.NotAllowed? <==> c.tenantId != "" && c.agentId != "" && policy.Some? && !Allowed(c, policy)
      ensures v.NoContext? <==> c.tenantId == "" || c.agentId == ""
      ensures v.PolicyFailed? <==> !v.NoContext? && policy.None?
    {
      if c.tenantId == "" || c.agentId == "" { return NoContext; }
      if policy.None? { return PolicyFailed; }
      if c.tool !in policy.value || policy.value[c.tool] <= 0 { return NotAllowed; }
      var limit := policy.value[c.tool];
      var cap := PlatformCap(c.tool);
      if cap.Some? && limit > cap.value { limit := cap.value; }
      var admitted := limiter.Admit(c.agentId, c.tool, limit, now);
      if !admitted { return RateLimited; }
      var valid := ValidateArgs(c);
      if !valid { return BadArguments; }
      executed := executed + [c];
      return if execOk then Executed else ExecutionFailed;
    }

    /** One call: decided once, audited once, whatever the decision. */
    method Invoke(c: ToolCall, policy: Policy, now: int, execOk: bool) returns (v: Verdict)
      modifies limiter, this
      ensures audited == old(audited) + [Audit(c, v)]
      ensures limiter.windows == After(old(limiter.windows), c, policy, now)
      ensures executed == if Reaches(old(limiter.windows), c, policy, now) then old(executed) + [c] else old(executed)
      ensures (v.Executed? || v.ExecutionFailed?) <==> Reaches(old(limiter.windows), c, policy, now)
    {
      v := Decide(c, policy, now, execOk);
      audited := audited + [Audit(c, v)];
    }
  }

  /** The call is handed to the executor. */
  predicate Reaches(w: W.Windows, c: ToolCall, policy: Policy, now: int) {
    ReachesWindow(c, policy) && Admitted(w, c, policy, now) && GoodArguments(c)
  }

  // ---- the platform's cap over any run ----

  datatype Invocation = Invocation(call: ToolCall, policy: Policy, now: int)

  ghost predicate Clocked(run: seq<Invocation>, clock: int)
    decreases |run|
  {
    run == [] || (clock <= run[0].now && Clocked(run[1..], run[0].now))
  }

  function KeyOf(c: ToolCall): string {
    c.agentId + ":" + c.tool
  }

  /** When the executor was handed a call of the agent and tool, oldest first. */
  ghost function Executions(w: W.Windows, run: seq<Invocation>, agentId: string, tool: string): seq<int>
    decreases |run|
  {
    if run == [] then []
    else
      var x := run[0];
      (if x.call.agentId == agentId && x.call.tool == tool && Reaches(w, x.call, x.policy, x.now) then [x.now] else [])
      + Executions(After(w, x.call, x.policy, x.now), run[1..], agentId, tool)
  }

  /** What the rate window sees of a run. */
  ghost function Offered(run: seq<Invocation>): seq<W.Call>
    decreases |run|
  {
    if run == [] then []
    else
      var x := run[0];
      (if ReachesWindow(x.call, x.policy) then [WindowCall(x.call, x.policy, x.now)] else []) + Offered(run[1..])
  }

  /** Every call that gets to the window under the key asks for at most cap. */
  ghost predicate Capped(run: seq<Invocation>, key: string, cap: int) {
    forall i | 0 <= i < |run| && KeyOf(run[i].call) == key && ReachesWindow(run[i].call, run[i].policy) ::
      WindowCall(run[i].call, run[i].policy, run[i].now).limit <= cap
  }

  lemma {:induction false} OfferedRuns(run: seq<Invocation>, key: string, cap: int, clock: int)
    requires Clocked(run, clock) && Capped(run, key, cap)
    ensures W.Run(Offered(run), key, cap, clock)
    decreases |run|
  {
    if run != [] {
      var x := run[0];
      assert forall i | 0 <= i < |run[1..]| :: run[1..][i] == run[i + 1];
      OfferedRuns(run[1..], key, cap, x.now);
      RunEarlier(Offered(run[1..]), key, cap, clock, x.now);
      if ReachesWindow(x.call, x.policy) {
        var first := WindowCall(x.call, x.policy, x.now);
        assert ([first] + Offered(run[1..]))[1..] == Offered(run[1..]);
      } else {
        assert [] + Offered(run[1..]) == Offered(run[1..]);
      }
    }
  }

  lemma RunEarlier(calls: seq<W.Call>, key: string, cap: int, early: int, late: int)
    requires W.Run(calls, key, cap, late) && early <= late
    ensures W.Run(calls, key, cap, early)
  {
  }

  /** at says where in `all` each of the times stands, in order. */
  ghost predicate Placed(at: seq<nat>, all: seq<int>, times: seq<int>) {
    && |at| == |times|
    && (forall i | 0 <= i < |at| :: at[i] < |all| && all[at[i]] == times[i])
    && (forall i, j | 0 <= i < j < |at| :: at[i] < at[j])
  }

  function Shifted(at: seq<nat>, step: nat): (s: seq<nat>)
    ensures |s| == |at| && forall i | 0 <= i < |at| :: s[i] == at[i] + step
  {
    seq(|at|, i requires 0 <= i < |at| => at[i] + step)
  }

  lemma PlacedLater(at: seq<nat>, own: seq<int>, later: seq<int>, times: seq<int>)
    requires Placed(at, later, times)
    ensures Placed(Shifted(at, |own|), own + later, times)
  {
  }

  lemma PlacedFirst(at: seq<nat>, t: int, later: seq<int>, times: seq<int>)
    requires Placed(at, later, times)
    ensures Placed([0] + Shifted(at, 1), [t] + later, [t] + times)
  {
  }

  /** Every execution is an admission of its key. */
  lemma {:induction false} ExecutionsAreAdmissions(w: W.Windows, run: seq<Invocation>, agentId: string, tool: string)
    returns (at: seq<nat>)
    ensures Placed(at, W.Admissions(w, Offered(run), agentId + ":" + tool), Executions(w, run, agentId, tool))
    decreases |run|
  {
    if run == [] {
      at := [];
    } else {
      var x := run[0];
      var key := agentId + ":" + tool;
      var w' := After(w, x.call, x.policy, x.now);
      var rest := ExecutionsAreAdmissions(w', run[1..], agentId, tool);
      var later := W.Admissions(w', Offered(run[1..]), key);
      var times := Executions(w', run[1..], agentId, tool);
      AdmissionsOfFirst(w, run, key);
      if x.call.agentId == agentId && x.call.tool == tool && Reaches(w, x.call, x.policy, x.now) {
        PlacedFirst(rest, x.now, later, times);
        at := [0] + Shifted(rest, 1);
      } else {
        assert [] + times == times;
        var own := W.Admissions(w, Offered(run), key)[..|W.Admissions(w, Offered(run), key)| - |later|];
        PlacedLater(rest, own, later, times);
        at := Shifted(rest, |own|);
      }
    }
  }

  lemma AdmissionsOfFirst(w: W.Windows, run: seq<Invocation>, key: string)
    requires run != []
    ensures
      var x := run[0];
      var later := W.Admissions(After(w, x.call, x.policy, x.now), Offered(run[1..]), key);
      W.Admissions(w, Offered(run), key) ==
      (if ReachesWindow(x.call, x.policy) && KeyOf(x.call) == key && Admitted(w, x.call, x.policy, x.now)
       then [x.now] else []) + later
  {
    var x := run[0];
    var rest := Offered(run[1..]);
    if ReachesWindow(x.call, x.policy) {
      var first := WindowCall(x.call, x.policy, x.now);
      assert ([first] + rest)[1..] == rest;
    } else {
      assert [] + rest == rest;
      var later := W.Admissions(w, rest, key);
      assert [] + later == later;
    }
  }

  lemma {:induction false} StepsApart(at: seq<nat>, i: nat, j: nat)
    requires i <= j < |at| && forall a, b | 0 <= a < b < |at| :: at[a] < at[b]
    ensures j - i <= at[j] - at[i]
    decreases j
  {
    if i < j { StepsApart(at, i, j - 1); }
  }

  /** No policy lifts the platform's cap: in any stretch of a run shorter than a
      minute the executor is handed at most `cap` calls of an agent and tool,
      whatever the tenants, policies and arguments, until a reset of the windows
      drops that agent's. */
  lemma ExecutionsCapped(run: seq<Invocation>, agentId: string, tool: string, cap: int, clock: int, i: nat, j: nat)
    requires Clocked(run, clock) && Capped(run, agentId + ":" + tool, cap)
    requires W.NeverDropped(map[], Offered(run), agentId + ":" + tool)
    requires i <= j < |Executions(map[], run, agentId, tool)|
    requires Executions(map[], run, agentId, tool)[j] - Executions(map[], run, agentId, tool)[i] < W.MINUTE
    ensures j - i + 1 <= cap
  {
    var key := agentId + ":" + tool;
    var at := ExecutionsAreAdmissions(map[], run, agentId, tool);
    OfferedRuns(run, key, cap, clock);
    StepsApart(at, i, j);
    if i < j { assert at[i] < at[j]; }
    W.WindowBound(map[], Offered(run), key, cap, clock, at[i], at[j]);
  }

  /** The platform's caps are such bounds while tool names hold no colon, so that
      no other tool's calls are counted under the key. */
  lemma PlatformCaps(run: seq<Invocation>, agentId: string, tool: string)
    requires PlatformCap(tool).Some? && ':' !in tool
    requires forall i | 0 <= i < |run| :: ':' !in run[i].call.tool
    ensures Capped(run, agentId + ":" + tool, PlatformCap(tool).value)
  {
    forall i | 0 <= i < |run| && KeyOf(run[i].call) == agentId + ":" + tool
      ensures run[i].call.tool == tool
    {
      SameTool(run[i].call.agentId, run[i].call.tool, agentId, tool);
    }
  }

  lemma {:induction false} SameTool(a: string, t: string, b: string, u: string)
    requires ':' !in t && ':' !in u && a + ":" + t == b + ":" + u
    ensures t == u
    decreases |t|
  {
    LastOf(a, t);
    LastOf(b, u);
    if t != [] && u != [] {
      var s := a + ":" + t;
      var n, m := |t| - 1, |u| - 1;
      assert a + ":" + t[..n] == s[..|s| - 1] == b + ":" + u[..m];
      SameTool(a, t[..n], b, u[..m]);
      assert t == t[..n] + [t[n]] && u == u[..m] + [u[m]];
    }
  }

  lemma LastOf(a: string, t: string)
    ensures
      var s := a + ":" + t;
      if t == [] then s[|s| - 1] == ':' else s[|s| - 1] == t[|t| - 1] && s[|s| - 1] in t
  {
  }

  /** A call refused for its arguments has still used up its place in the window,
      since the arguments are looked at only after admission: whatever the limit
      and the calls before, one admission fewer is left at that instant. */
  lemma BadArgumentsUseTheBudget(w: W.Windows, c: ToolCall, policy: Policy, now: int)
    requires ReachesWindow(c, policy) && !GoodArguments(c) && Admitted(w, c, policy, now)
    ensures !Reaches(w, c, policy, now)
    ensures
      var next := After(w, c, policy, now);
      var used := |W.Recent(W.WindowOf(w, KeyOf(c)), now)|;
      && |W.Recent(W.WindowOf(next, KeyOf(c)), now)| == used + 1
      && (Admitted(next, c, policy, now) <==> used + 1 < WindowCall(c, policy, now).limit)
  {
    var window := W.WindowOf(w, KeyOf(c));
    var next := After(w, c, policy, now);
    assert W.WindowOf(next, KeyOf(c)) == W.Recent(window, now) + [now];
    W.RecentAdd(W.Recent(window, now), now, now);
    W.RecentTwice(window, now, now);
  }
}
