/** The tool gateway's per-agent, per-tool call window: the timestamps of the
    last minute's admissions, compacted in place on every call. */
module SlidingWindow {
  import opened Lists

  const MINUTE: int := 60_000_000_000

  const MAX_WINDOWS: nat := 10_000

  /** The timestamps younger than a minute, in order. */
  function Recent(w: seq<int>, now: int): seq<int> {
    if w == [] then []
    else if now - w[0] < MINUTE then [w[0]] + Recent(w[1..], now)
    else Recent(w[1..], now)
  }

  lemma {:induction false} RecentConcat(a: seq<int>, b: seq<int>, now: int)
    ensures Recent(a + b, now) == Recent(a, now) + Recent(b, now)
  {
    if a == [] {
      assert a + b == b;
    } else {
      assert (a + b)[1..] == a[1..] + b;
      RecentConcat(a[1..], b, now);
    }
  }

  lemma RecentAdd(a: seq<int>, t: int, now: int)
    ensures Recent(a + [t], now) == Recent(a, now) + (if now - t < MINUTE then [t] else [])
  {
    RecentConcat(a, [t], now);
    assert [t][1..] == [];
  }

  lemma {:induction false} RecentShorter(a: seq<int>, now: int)
    ensures |Recent(a, now)| <= |a|
  {
    if a != [] { RecentShorter(a[1..], now); }
  }

  type Windows = map<string, seq<int>>

  function WindowOf(w: Windows, key: string): seq<int> {
    if key in w then w[key] else []
  }

  predicate Admits(w: Windows, key: string, limit: int, now: int) {
    |Recent(WindowOf(w, key), now)| < limit
  }

  /** The windows after one call. An admission that leaves more than MAX_WINDOWS
      keys drops every window but its own. */
  function Admitted(w: Windows, key: string, limit: int, now: int): Windows {
    var window := Recent(WindowOf(w, key), now);
    if !Admits(w, key, limit, now) then w[key := window]
    else
      var grown := w[key := window + [now]];
      if |grown| > MAX_WINDOWS then map[key := window + [now]] else grown
  }

  // ---- the gateway ----

  /** Keeps the recent elements of a[..n] at the front of a, in order. Reads stay
      ahead of writes, so compacting in place loses nothing. */
  method Compact(a: array<int>, n: nat, now: int) returns (k: nat)
    requires n <= a.Length
    modifies a
    ensures k <= n && a[..k] == Recent(old(a[..n]), now)
  {
    k := 0;
    ghost var all := a[..n];
    for i := 0 to n
      invariant k <= i && a[..k] == Recent(all[..i], now)
      invariant a[i..n] == all[i..]
    {
      assert all[..i + 1] == all[..i] + [all[i]];
      assert a[i] == a[i..n][0] == all[i..][0];
      RecentAdd(all[..i], all[i], now);
      ghost var rest := a[i + 1..n];
      assert rest == a[i..n][1..] == all[i..][1..];
      if now - a[i] < MINUTE {
        a[k] := a[i];
        k := k + 1;
      }
      assert a[i + 1..n] == rest;
    }
    assert all[..n] == all;
  }

  class Gateway {
    var windows: Windows

    constructor ()
      ensures windows == map[]
    {
      windows := map[];
    }

    /** Admits or refuses one call at time now; `backing` is the array behind the
        key's window, which is compacted in place. */
    method Admit(agentId: string, tool: string, limit: int, now: int) returns (ok: bool)
      modifies this
      ensures ok == Admits(old(windows), agentId + ":" + tool, limit, now)
      ensures windows == Admitted(old(windows), agentId + ":" + tool, limit, now)
    {
      var key := agentId + ":" + tool;
      var stored := WindowOf(windows, key);
      var backing := new int[|stored|](i requires 0 <= i < |stored| => stored[i]);
      assert backing[..|stored|] == stored;
      var k := Compact(backing, |stored|, now);
      var window := backing[..k];
      if |window| >= limit {
        windows := windows[key := window];
        return false;
      }
      windows := windows[key := window + [now]];
      if |windows| > MAX_WINDOWS {
        windows := map[key := windows[key]];
      }
      return true;
    }
  }

  // ---- the rate over any run ----

  datatype Call = Call(key: string, limit: int, now: int)

  function After(w: Windows, c: Call): Windows {
    Admitted(w, c.key, c.limit, c.now)
  }

  /** Calls on a clock that does not run backwards, whose limits for the key stay
      at or below `limit`. */
  ghost predicate Run(calls: seq<Call>, key: string, limit: int, clock: int)
    decreases |calls|
  {
    calls == [] ||
    (clock <= calls[0].now && (calls[0].key == key ==> calls[0].limit <= limit)
     && Run(calls[1..], key, limit, calls[0].now))
  }

  /** The admission times of a key over a run, oldest first. */
  ghost function Admissions(w: Windows, calls: seq<Call>, key: string): seq<int>
    decreases |calls|
  {
    if calls == [] then []
    else
      var c := calls[0];
      (if c.key == key && Admits(w, key, c.limit, c.now) then [c.now] else [])
      + Admissions(After(w, c), calls[1..], key)
  }

  /** No reset during the run drops the key's window. */
  ghost predicate NeverDropped(w: Windows, calls: seq<Call>, key: string)
    decreases |calls|
  {
    calls == [] ||
    ((key in w ==> key in After(w, calls[0])) && NeverDropped(After(w, calls[0]), calls[1..], key))
  }

  /** A key's window is exactly its admissions of the last minute. */
  ghost predicate Tracks(w: Windows, key: string, past: seq<int>, seen: int) {
    WindowOf(w, key) == Recent(past, seen) && forall i | 0 <= i < |past| :: past[i] <= seen
  }

  lemma {:induction false} RecentTwice(a: seq<int>, t0: int, t1: int)
    requires t0 <= t1
    ensures Recent(Recent(a, t0), t1) == Recent(a, t1)
  {
    if a != [] {
      RecentTwice(a[1..], t0, t1);
      if t0 - a[0] < MINUTE {
        assert ([a[0]] + Recent(a[1..], t0))[1..] == Recent(a[1..], t0);
      }
    }
  }

  predicate Sorted(a: seq<int>) {
    forall i, j | 0 <= i < j < |a| :: a[i] <= a[j]
  }

  /** In a sorted history the recent part is the tail from any recent element on. */
  lemma {:induction false} RecentTail(a: seq<int>, now: int, i: nat)
    requires Sorted(a) && i < |a| && now - a[i] < MINUTE
    ensures |Recent(a, now)| >= |a| - i
  {
    if i == 0 {
      AllRecent(a, now);
    } else {
      RecentTail(a[1..], now, i - 1);
    }
  }

  lemma {:induction false} AllRecent(a: seq<int>, now: int)
    requires forall i | 0 <= i < |a| :: now - a[i] < MINUTE
    ensures Recent(a, now) == a
  {
    if a != [] { AllRecent(a[1..], now); }
  }

  /** Any two admissions less than a minute apart are fewer than `limit` apart. */
  ghost predicate Spaced(a: seq<int>, limit: int) {
    forall i, j | 0 <= i <= j < |a| && a[j] - a[i] < MINUTE :: j - i + 1 <= limit
  }

  lemma SpacedAppend(a: seq<int>, t: int, limit: int)
    requires Sorted(a) && Spaced(a, limit) && |Recent(a, t)| < limit
    requires forall i | 0 <= i < |a| :: a[i] <= t
    ensures Sorted(a + [t]) && Spaced(a + [t], limit)
  {
    var b := a + [t];
    forall i, j | 0 <= i <= j < |b| && b[j] - b[i] < MINUTE
      ensures j - i + 1 <= limit
    {
      if j < |a| {
        assert b[i] == a[i] && b[j] == a[j];
      } else if i < |a| {
        RecentTail(a, t, i);
      }
    }
  }

  /** One call extends the history of its key by its admission, if any, and the
      key's window keeps tracking the history. */
  lemma CallTracks(w: Windows, c: Call, key: string, past: seq<int>, seen: int)
    requires Tracks(w, key, past, seen) && seen <= c.now && (key in w ==> key in After(w, c))
    ensures
      var now := c.key == key && Admits(w, key, c.limit, c.now);
      Tracks(After(w, c), key, if now then past + [c.now] else past, if c.key == key then c.now else seen)
  {
    if c.key == key {
      RecentTwice(past, seen, c.now);
      RecentAdd(past, c.now, c.now);
    }
  }

  function Extended(w: Windows, c: Call, key: string, past: seq<int>): seq<int> {
    if c.key == key && Admits(w, key, c.limit, c.now) then past + [c.now] else past
  }

  lemma CallSpaced(w: Windows, c: Call, key: string, limit: int, past: seq<int>, seen: int)
    requires Tracks(w, key, past, seen) && seen <= c.now && (c.key == key ==> c.limit <= limit)
    requires Sorted(past) && Spaced(past, limit)
    ensures Sorted(Extended(w, c, key, past)) && Spaced(Extended(w, c, key, past), limit)
  {
    if c.key == key && Admits(w, key, c.limit, c.now) {
      RecentTwice(past, seen, c.now);
      SpacedAppend(past, c.now, limit);
    }
  }

  lemma {:induction false} RunSpaced(w: Windows, calls: seq<Call>, key: string, limit: int,
                                     past: seq<int>, seen: int, clock: int)
    requires Run(calls, key, limit, clock) && NeverDropped(w, calls, key)
    requires Tracks(w, key, past, seen) && seen <= clock
    requires Sorted(past) && Spaced(past, limit)
    ensures Spaced(past + Admissions(w, calls, key), limit)
    decreases |calls|
  {
    if calls == [] {
      assert past + Admissions(w, calls, key) == past;
    } else {
      var c := calls[0];
      var past' := Extended(w, c, key, past);
      CallTracks(w, c, key, past, seen);
      CallSpaced(w, c, key, limit, past, seen);
      RunSpaced(After(w, c), calls[1..], key, limit, past', if c.key == key then c.now else seen, c.now);
      AdmissionsStep(w, calls, key, past);
    }
  }

  lemma AdmissionsStep(w: Windows, calls: seq<Call>, key: string, past: seq<int>)
    requires calls != []
    ensures past + Admissions(w, calls, key)
         == Extended(w, calls[0], key, past) + Admissions(After(w, calls[0]), calls[1..], key)
  {
    var c := calls[0];
    var head := if c.key == key && Admits(w, key, c.limit, c.now) then [c.now] else [];
    var rest := Admissions(After(w, c), calls[1..], key);
    ConcatAssoc(past, head, rest);
    assert past + [] == past;
  }

  /** Any stretch of a run shorter than a minute admits at most `limit` calls of a
      key, from its first call until a reset drops it, as long as no call asked for
      a higher limit; for a fixed limit that is the limit itself. */
  lemma WindowBound(w: Windows, calls: seq<Call>, key: string, limit: int, clock: int, i: nat, j: nat)
    requires key !in w && Run(calls, key, limit, clock) && NeverDropped(w, calls, key)
    requires i <= j < |Admissions(w, calls, key)|
    requires Admissions(w, calls, key)[j] - Admissions(w, calls, key)[i] < MINUTE
    ensures j - i + 1 <= limit
  {
    RunSpaced(w, calls, key, limit, [], clock, clock);
    assert [] + Admissions(w, calls, key) == Admissions(w, calls, key);
  }

  /** A call is refused only when `limit` admissions of its last minute stand
      against it: the window never holds anything but admissions. */
  lemma RefusalIsEarned(w: Windows, c: Call, past: seq<int>, seen: int)
    requires Tracks(w, c.key, past, seen) && seen <= c.now
    ensures !Admits(w, c.key, c.limit, c.now) <==> |Recent(past, c.now)| >= c.limit
  {
    RecentTwice(past, seen, c.now);
  }

  function AfterAll(w: Windows, calls: seq<Call>): Windows
    decreases |calls|
  {
    if calls == [] then w else AfterAll(After(w, calls[0]), calls[1..])
  }

  function LastSeen(calls: seq<Call>, key: string, seen: int): int
    decreases |calls|
  {
    if calls == [] then seen else LastSeen(calls[1..], key, if calls[0].key == key then calls[0].now else seen)
  }

  lemma {:induction false} SeenInTime(calls: seq<Call>, key: string, limit: int, seen: int, clock: int)
    requires Run(calls, key, limit, clock) && seen <= clock
    ensures LastSeen(calls, key, seen) <= if calls == [] then clock else calls[|calls| - 1].now
    decreases |calls|
  {
    if calls != [] {
      SeenInTime(calls[1..], key, limit, if calls[0].key == key then calls[0].now else seen, calls[0].now);
    }
  }

  lemma {:induction false} RunTracks(w: Windows, calls: seq<Call>, key: string, limit: int,
                                     past: seq<int>, seen: int, clock: int)
    requires Run(calls, key, limit, clock) && NeverDropped(w, calls, key)
    requires Tracks(w, key, past, seen) && seen <= clock
    ensures Tracks(AfterAll(w, calls), key, past + Admissions(w, calls, key), LastSeen(calls, key, seen))
    decreases |calls|
  {
    if calls == [] {
      assert past + Admissions(w, calls, key) == past;
    } else {
      var c := calls[0];
      CallTracks(w, c, key, past, seen);
      RunTracks(After(w, c), calls[1..], key, limit, Extended(w, c, key, past),
                if c.key == key then c.now else seen, c.now);
      AdmissionsStep(w, calls, key, past);
    }
  }

  lemma SortedCons(head: seq<int>, rest: seq<int>, t: int, clock: int)
    requires clock <= t && (head == [] || head == [t]) && Sorted(rest) && forall u | u in rest :: t <= u
    ensures Sorted(head + rest) && forall u | u in head + rest :: clock <= u
  {
    assert forall i | 0 <= i < |rest| :: rest[i] in rest;
    if head == [] { assert head + rest == rest; }
  }

  lemma {:induction false} AdmissionsAscend(w: Windows, calls: seq<Call>, key: string, limit: int, clock: int)
    requires Run(calls, key, limit, clock)
    ensures Sorted(Admissions(w, calls, key))
    ensures forall t | t in Admissions(w, calls, key) :: clock <= t
    decreases |calls|
  {
    if calls != [] {
      var c := calls[0];
      AdmissionsAscend(After(w, c), calls[1..], key, limit, c.now);
      var head := if c.key == key && Admits(w, key, c.limit, c.now) then [c.now] else [];
      SortedCons(head, Admissions(After(w, c), calls[1..], key), c.now, clock);
    }
  }

  /** In a sorted history the youngest n are recent if and only if the n-th last is. */
  lemma {:induction false} RecentCount(a: seq<int>, now: int, n: nat)
    requires Sorted(a) && 1 <= n
    ensures |Recent(a, now)| >= n <==> n <= |a| && now - a[|a| - n] < MINUTE
    decreases |a|
  {
    if n <= |a| && now - a[|a| - n] < MINUTE {
      RecentTail(a, now, |a| - n);
    } else if a != [] {
      if n <= |a| {
        NotRecent(a, now, |a| - n);
      } else {
        RecentShorter(a, now);
      }
    }
  }

  lemma {:induction false} NotRecent(a: seq<int>, now: int, i: nat)
    requires Sorted(a) && i < |a| && now - a[i] >= MINUTE
    ensures |Recent(a, now)| < |a| - i
  {
    if i == 0 {
      RecentShorter(a[1..], now);
    } else {
      NotRecent(a[1..], now, i - 1);
    }
  }

  lemma TracksFromStart(w: Windows, calls: seq<Call>, key: string, limit: int, clock: int)
    requires key !in w && Run(calls, key, limit, clock) && NeverDropped(w, calls, key)
    ensures Tracks(AfterAll(w, calls), key, Admissions(w, calls, key), LastSeen(calls, key, clock))
  {
    RunTracks(w, calls, key, limit, [], clock, clock);
    assert [] + Admissions(w, calls, key) == Admissions(w, calls, key);
  }

  lemma Spent(w: Windows, c: Call, past: seq<int>, seen: int)
    requires Tracks(w, c.key, past, seen) && seen <= c.now && Sorted(past) && c.limit >= 1
    ensures !Admits(w, c.key, c.limit, c.now)
            <==> c.limit <= |past| && c.now - past[|past| - c.limit] < MINUTE
  {
    RefusalIsEarned(w, c, past, seen);
    RecentCount(past, c.now, c.limit);
  }

  /** So over a whole run a call under a limit of n is refused if and only if the n-th
      last admission of its key lies within the minute before it. */
  lemma RefusedIffSpent(w: Windows, calls: seq<Call>, limit: int, clock: int, c: Call)
    requires c.key !in w && Run(calls, c.key, limit, clock) && NeverDropped(w, calls, c.key)
    requires c.now >= (if calls == [] then clock else calls[|calls| - 1].now) && c.limit >= 1
    ensures
      var past := Admissions(w, calls, c.key);
      !Admits(AfterAll(w, calls), c.key, c.limit, c.now)
      <==> c.limit <= |past| && c.now - past[|past| - c.limit] < 60_000_000_000
  {
    var past := Admissions(w, calls, c.key);
    TracksFromStart(w, calls, c.key, limit, clock);
    SeenInTime(calls, c.key, limit, clock, clock);
    AdmissionsAscend(w, calls, c.key, limit, clock);
    Spent(AfterAll(w, calls), c, past, LastSeen(calls, c.key, clock));
  }

  /** Windows are dropped only by an admission that would leave more than MAX_WINDOWS
      of them; it keeps its own. With positive limits there are never more. */
  lemma DropsOnlyBeyondBound(w: Windows, c: Call)
    ensures c.key in After(w, c)
    ensures
      if c.key !in w && |w| >= MAX_WINDOWS && c.limit > 0 then After(w, c).Keys == {c.key}
      else if |w| <= MAX_WINDOWS then After(w, c).Keys == w.Keys + {c.key}
      else w.Keys <= After(w, c).Keys || After(w, c).Keys == {c.key}
    ensures |w| <= MAX_WINDOWS && c.limit > 0 ==> |After(w, c)| <= MAX_WINDOWS
  {
    var grown := w[c.key := Recent(WindowOf(w, c.key), c.now) + [c.now]];
    assert grown.Keys == w.Keys + {c.key};
    if c.key in w {
      assert grown.Keys == w.Keys;
    } else {
      assert Recent([], c.now) == [];
    }
    assert |grown| == |grown.Keys| && |w| == |w.Keys|;
  }
}
