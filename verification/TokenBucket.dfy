/** The in-process token-bucket limiter. Time is in nanoseconds; tokens are
    scaled integers (UNIT per token, so that `perMinute` units drip in per
    nanosecond), which makes the arithmetic exact. */
module TokenBucket {

  const UNIT: int := 60_000_000_000

  datatype Bucket = Bucket(tokens: int, last: int)

  datatype Config = Config(perMinute: int, burst: int, maxBuckets: int)

  predicate ConfigOk(c: Config) {
    c.perMinute >= 1 && c.burst >= 1 && c.maxBuckets >= 1
  }

  function Cap(c: Config): int {
    c.burst * UNIT
  }

  function Min(a: int, b: int): int {
    if a < b then a else b
  }

  function Fresh(c: Config, now: int): Bucket {
    Bucket(Cap(c), now)
  }

  function Refilled(c: Config, b: Bucket, now: int): int {
    Min(Cap(c), b.tokens + (now - b.last) * c.perMinute)
  }

  /** One Allow on one bucket: the decision, and the bucket it leaves. */
  predicate Ok(c: Config, b: Bucket, now: int) {
    Refilled(c, b, now) >= UNIT
  }

  function After(c: Config, b: Bucket, now: int): Bucket {
    Bucket(Refilled(c, b, now) - (if Ok(c, b, now) then UNIT else 0), now)
  }

  /** The wait a denial returns, truncated to whole nanoseconds. */
  function Hint(c: Config, denied: Bucket): int
    requires ConfigOk(c)
  {
    (UNIT - denied.tokens) / c.perMinute
  }

  type Buckets = map<string, Bucket>

  function HalfOf(n: nat): nat {
    if n / 2 < 1 then 1 else n / 2
  }

  /** Eviction: half of the buckets go, and none younger than a bucket kept.
      Which of several equally old buckets goes is the sort's choice. */
  ghost predicate EvictsOldestHalf(before: Buckets, after: Buckets) {
    && after.Keys <= before.Keys
    && (forall k | k in after :: after[k] == before[k])
    && |after| == |before| - HalfOf(|before|)
    && (forall d, k | d in before && d !in after && k in after :: before[d].last <= before[k].last)
  }

  /** The table an Allow works on: after eviction when a new key finds it full. */
  ghost predicate MadeRoom(c: Config, before: Buckets, key: string, mid: Buckets) {
    if key !in before && |before| >= c.maxBuckets then EvictsOldestHalf(before, mid) else mid == before
  }

  function BucketAt(c: Config, t: Buckets, key: string, now: int): Bucket {
    if key in t then t[key] else Fresh(c, now)
  }

  ghost predicate Allows(c: Config, before: Buckets, key: string, now: int, after: Buckets, ok: bool) {
    exists mid :: MadeRoom(c, before, key, mid)
                  && ok == Ok(c, BucketAt(c, mid, key, now), now)
                  && after == mid[key := After(c, BucketAt(c, mid, key, now), now)]
  }

  class RateLimit {
    const config: Config
    var buckets: Buckets

    constructor (perMinute: int, burst: int, maxBuckets: int)
      ensures buckets == map[] && ConfigOk(config)
      ensures perMinute > 0 && burst > 0 && maxBuckets > 0 ==> config == Config(perMinute, burst, maxBuckets)
      ensures perMinute <= 0 ==> config.perMinute == 60
      ensures burst <= 0 ==> config.burst == config.perMinute
      ensures maxBuckets <= 0 ==> config.maxBuckets == 10_000
    {
      var pm := if perMinute <= 0 then 60 else perMinute;
      config := Config(pm, if burst <= 0 then pm else burst, if maxBuckets <= 0 then 10_000 else maxBuckets);
      buckets := map[];
    }

    method Allow(key: string, now: int) returns (ok: bool, wait: int)
      requires ConfigOk(config)
      modifies this
      ensures Allows(config, old(buckets), key, now, buckets, ok)
      ensures key in buckets && wait == if ok then 0 else Hint(config, buckets[key])
    {
      ghost var mid := buckets;
      if key !in buckets {
        if |buckets| >= config.maxBuckets {
          EvictLocked();
        }
        mid := buckets;
        buckets := buckets[key := Bucket(config.burst * UNIT, now)];
      }
      assert MadeRoom(config, old(buckets), key, mid);
      ghost var b := buckets[key];
      assert BucketAt(config, mid, key, now) == b;
      var tokens := buckets[key].tokens + (now - buckets[key].last) * config.perMinute;
      if tokens > config.burst * UNIT {
        tokens := config.burst * UNIT;
      }
      assert tokens == Refilled(config, b, now);
      if tokens >= UNIT {
        buckets := buckets[key := Bucket(tokens - UNIT, now)];
        ok, wait := true, 0;
      } else {
        buckets := buckets[key := Bucket(tokens, now)];
        ok, wait := false, (UNIT - tokens) / config.perMinute;
      }
      assert buckets == mid[key := After(config, b, now)];
    }

    method EvictLocked()
      requires |buckets| >= 1
      modifies this
      ensures EvictsOldestHalf(old(buckets), buckets)
    {
      var all := SortedByLast(buckets);
      var half := |all| / 2;
      if half < 1 {
        half := 1;
      }
      assert buckets == Without(buckets, all[..0]);
      for i := 0 to half
        invariant buckets == Without(old(buckets), all[..i])
      {
        buckets := buckets - {all[i]};
        assert all[..i + 1] == all[..i] + [all[i]];
      }
      OldestGone(old(buckets), all, half);
    }
  }

  function Without(t: Buckets, keys: seq<string>): Buckets {
    map k | k in t && k !in keys :: t[k]
  }

  predicate Ascending(t: Buckets, keys: seq<string>)
    requires forall k | k in keys :: k in t
  {
    forall i, j | 0 <= i < j < |keys| :: t[keys[i]].last <= t[keys[j]].last
  }

  predicate NoRepeats(keys: seq<string>) {
    forall i, j | 0 <= i < j < |keys| :: keys[i] != keys[j]
  }

  lemma {:induction false} WithoutSize(t: Buckets, keys: seq<string>, n: nat)
    requires n <= |keys| && NoRepeats(keys) && forall k | k in keys :: k in t
    ensures |Without(t, keys[..n])| == |t| - n
  {
    if n == 0 {
      assert Without(t, keys[..0]) == t;
    } else {
      WithoutSize(t, keys, n - 1);
      var bigger := Without(t, keys[..n - 1]);
      assert keys[n - 1] in bigger.Keys;
      assert keys[..n] == keys[..n - 1] + [keys[n - 1]];
      assert Without(t, keys[..n]).Keys == bigger.Keys - {keys[n - 1]};
    }
  }

  lemma OldestGone(t: Buckets, keys: seq<string>, n: nat)
    requires |keys| == |t| && NoRepeats(keys) && (forall k :: k in keys <==> k in t) && Ascending(t, keys)
    requires n == HalfOf(|t|) <= |keys|
    ensures EvictsOldestHalf(t, Without(t, keys[..n]))
  {
    WithoutSize(t, keys, n);
    var after := Without(t, keys[..n]);
    forall d, k | d in t && d !in after && k in after
      ensures t[d].last <= t[k].last
    {
      var i :| 0 <= i < n && keys[..n][i] == d;
      var j :| 0 <= j < |keys| && keys[j] == k;
      assert k !in keys[..n];
      assert forall m | 0 <= m < n :: keys[..n][m] == keys[m];
    }
  }

  /** The tracked keys, oldest touch first. */
  method SortedByLast(t: Buckets) returns (keys: seq<string>)
    ensures |keys| == |t| && NoRepeats(keys)
    ensures forall k :: k in keys <==> k in t
    ensures Ascending(t, keys)
  {
    keys := [];
    var rest := t.Keys;
    while rest != {}
      invariant rest <= t.Keys && |keys| + |rest| == |t.Keys|
      invariant forall k :: k in keys <==> k in t.Keys - rest
      invariant NoRepeats(keys) && Ascending(t, keys)
      invariant forall a, b | a in keys && b in rest :: t[a].last <= t[b].last
      decreases rest
    {
      var k := Oldest(t, rest);
      keys := keys + [k];
      rest := rest - {k};
    }
  }

  method Oldest(t: Buckets, among: set<string>) returns (oldest: string)
    requires among != {} && among <= t.Keys
    ensures oldest in among && forall k | k in among :: t[oldest].last <= t[k].last
  {
    oldest :| oldest in among;
    var rest := among - {oldest};
    while rest != {}
      invariant rest <= among && oldest in among
      invariant forall k | k in among - rest :: t[oldest].last <= t[k].last
      decreases rest
    {
      var k :| k in rest;
      if t[k].last < t[oldest].last {
        oldest := k;
      }
      rest := rest - {k};
    }
  }

  // ---- the rate over any run ----

  /** One Allow of a run, with the table it leaves. */
  datatype Call = Call(key: string, now: int, ok: bool, after: Buckets)

  ghost predicate Makes(c: Config, before: Buckets, call: Call) {
    Allows(c, before, call.key, call.now, call.after, call.ok)
  }

  /** Calls made one after another on a clock that does not run backwards. */
  ghost predicate Run(c: Config, before: Buckets, calls: seq<Call>, clock: int)
    decreases |calls|
  {
    calls == [] ||
    (clock <= calls[0].now && Makes(c, before, calls[0]) && Run(c, calls[0].after, calls[1..], calls[0].now))
  }

  /** Every bucket is within [0, burst] and was last touched by the given time. */
  ghost predicate TableOk(c: Config, t: Buckets, clock: int) {
    forall k | k in t :: 0 <= t[k].tokens <= Cap(c) && t[k].last <= clock
  }

  lemma MulNonNegative(a: int, b: int)
    requires a >= 0 && b >= 0
    ensures a * b >= 0
  {
  }

  lemma RefilledBounds(c: Config, b: Bucket, now: int)
    requires ConfigOk(c) && 0 <= b.tokens <= Cap(c) && b.last <= now
    ensures b.tokens <= Refilled(c, b, now) <= Cap(c)
    ensures 0 <= After(c, b, now).tokens <= Cap(c)
  {
    MulNonNegative(now - b.last, c.perMinute);
  }

  lemma StepTableOk(c: Config, before: Buckets, call: Call, clock: int)
    requires ConfigOk(c) && TableOk(c, before, clock) && clock <= call.now && Makes(c, before, call)
    ensures TableOk(c, call.after, call.now)
  {
    var mid :| MadeRoom(c, before, call.key, mid)
               && call.ok == Ok(c, BucketAt(c, mid, call.key, call.now), call.now)
               && call.after == mid[call.key := After(c, BucketAt(c, mid, call.key, call.now), call.now)];
    assert TableOk(c, mid, clock);
    RefilledBounds(c, BucketAt(c, mid, call.key, call.now), call.now);
  }

  /** The limiter never tracks more keys than configured. */
  lemma StepBounded(c: Config, before: Buckets, call: Call)
    requires ConfigOk(c) && |before| <= c.maxBuckets && Makes(c, before, call)
    ensures |call.after| <= c.maxBuckets
  {
    var mid :| MadeRoom(c, before, call.key, mid)
               && call.ok == Ok(c, BucketAt(c, mid, call.key, call.now), call.now)
               && call.after == mid[call.key := After(c, BucketAt(c, mid, call.key, call.now), call.now)];
    assert call.after.Keys == mid.Keys + {call.key};
    if call.key in before {
      assert mid.Keys + {call.key} == mid.Keys;
    }
  }

  lemma RoomForgets(c: Config, before: Buckets, key: string, mid: Buckets)
    requires MadeRoom(c, before, key, mid)
    ensures key in before || |before| < c.maxBuckets ==> mid == before
    ensures key !in before && |before| >= c.maxBuckets ==>
              key !in mid && |before.Keys - mid.Keys| == HalfOf(|before|)
  {
    if key !in before && |before| >= c.maxBuckets {
      assert mid.Keys <= before.Keys;
      assert (before.Keys - mid.Keys) + mid.Keys == before.Keys;
      assert |mid.Keys| == |mid| && |before.Keys| == |before|;
    }
  }

  /** The keys of a table a call has dropped. */
  function Forgotten(before: Buckets, call: Call): set<string> {
    before.Keys - call.after.Keys
  }

  /** No forgotten key was touched later than a key that stays. */
  ghost predicate OldestForgotten(before: Buckets, call: Call) {
    forall d, k | d in Forgotten(before, call) && k in before && k in call.after :: before[d].last <= before[k].last
  }

  lemma RoomForgetsOldest(c: Config, before: Buckets, call: Call, mid: Buckets)
    requires MadeRoom(c, before, call.key, mid) && call.after.Keys == mid.Keys + {call.key}
    ensures OldestForgotten(before, call)
    ensures Forgotten(before, call) == before.Keys - mid.Keys
  {
    RoomForgets(c, before, call.key, mid);
    forall d, k | d in Forgotten(before, call) && k in before && k in call.after
      ensures before[d].last <= before[k].last
    {
      assert d !in mid && k in mid;
    }
  }

  /** A key is forgotten only to make room for a new one in a full table: then half
      of the keys go, the oldest ones. */
  lemma ForgetsOnlyWhenFull(c: Config, before: Buckets, call: Call)
    requires Makes(c, before, call)
    ensures call.key in call.after
    ensures |Forgotten(before, call)| ==
            if call.key !in before && |before| >= c.maxBuckets then HalfOf(|before|) else 0
    ensures OldestForgotten(before, call)
  {
    var mid :| MadeRoom(c, before, call.key, mid)
               && call.ok == Ok(c, BucketAt(c, mid, call.key, call.now), call.now)
               && call.after == mid[call.key := After(c, BucketAt(c, mid, call.key, call.now), call.now)];
    assert call.after.Keys == mid.Keys + {call.key};
    RoomForgets(c, before, call.key, mid);
    RoomForgetsOldest(c, before, call, mid);
    if call.key in before || |before| < c.maxBuckets { assert Forgotten(before, call) == {}; }
  }

  lemma {:induction false} TrackedKeysBounded(c: Config, before: Buckets, calls: seq<Call>, clock: int, i: nat)
    requires ConfigOk(c) && |before| <= c.maxBuckets && Run(c, before, calls, clock) && i < |calls|
    ensures |calls[i].after| <= c.maxBuckets
    decreases |calls|
  {
    StepBounded(c, before, calls[0]);
    if i > 0 { TrackedKeysBounded(c, calls[0].after, calls[1..], calls[0].now, i - 1); }
  }

  /** How many calls for the key were allowed. */
  ghost function Allowed(calls: seq<Call>, key: string): nat {
    if calls == [] then 0
    else (if calls[0].key == key && calls[0].ok then 1 else 0) + Allowed(calls[1..], key)
  }

  /** The key is never evicted during the run. */
  ghost predicate Tracked(calls: seq<Call>, key: string) {
    forall i | 0 <= i < |calls| :: key in calls[i].after
  }

  /** What the key may spend at time t: its tokens by then. */
  function Purse(c: Config, t: Buckets, key: string, now: int): int {
    Refilled(c, BucketAt(c, t, key, now), now)
  }

  lemma PurseBounds(c: Config, t: Buckets, key: string, clock: int, now: int)
    requires ConfigOk(c) && TableOk(c, t, clock) && clock <= now
    ensures 0 <= Purse(c, t, key, now) <= Cap(c)
  {
    RefilledBounds(c, BucketAt(c, t, key, now), now);
  }

  /** A call takes a whole token out of its key's purse if allowed, and leaves
      the purses of the other tracked keys alone. */
  lemma StepPurse(c: Config, before: Buckets, call: Call, clock: int, key: string)
    requires ConfigOk(c) && TableOk(c, before, clock) && clock <= call.now && Makes(c, before, call)
    requires key in call.after
    ensures
      var paid := if call.key == key && call.ok then UNIT else 0;
      && paid <= Purse(c, before, key, call.now)
      && (call.key == key ==> call.after[key] == Bucket(Purse(c, before, key, call.now) - paid, call.now))
      && (call.key != key ==> key in before && call.after[key] == before[key])
  {
    var mid :| MadeRoom(c, before, call.key, mid)
               && call.ok == Ok(c, BucketAt(c, mid, call.key, call.now), call.now)
               && call.after == mid[call.key := After(c, BucketAt(c, mid, call.key, call.now), call.now)];
    PurseBounds(c, before, key, clock, call.now);
    if call.key == key {
      assert BucketAt(c, mid, key, call.now) == BucketAt(c, before, key, call.now);
    }
  }

  /** Between two instants a purse grows by the drip at most. */
  lemma PurseGrows(c: Config, b: Bucket, t0: int, t1: int)
    requires t0 <= t1 && ConfigOk(c)
    ensures Refilled(c, b, t1) <= Refilled(c, b, t0) + (t1 - t0) * c.perMinute
  {
    MulNonNegative(t1 - t0, c.perMinute);
    assert (t1 - b.last) * c.perMinute == (t0 - b.last) * c.perMinute + (t1 - t0) * c.perMinute;
  }

  lemma PurseAfterStep(c: Config, before: Buckets, call: Call, clock: int, key: string, later: int)
    requires ConfigOk(c) && TableOk(c, before, clock) && clock <= call.now <= later && Makes(c, before, call)
    requires key in call.after
    ensures
      var paid := if call.key == key && call.ok then UNIT else 0;
      Purse(c, call.after, key, later) <= Purse(c, before, key, call.now) - paid + (later - call.now) * c.perMinute
  {
    StepPurse(c, before, call, clock, key);
    PurseGrows(c, call.after[key], call.now, later);
    if call.key == key {
      assert (call.now - call.now) * c.perMinute == 0;
    }
  }

  lemma {:induction false} RatePotential(c: Config, before: Buckets, calls: seq<Call>, clock: int, key: string)
    requires ConfigOk(c) && TableOk(c, before, clock) && Run(c, before, calls, clock) && calls != []
    requires Tracked(calls, key)
    ensures Allowed(calls, key) * UNIT <=
            Purse(c, before, key, calls[0].now) + (calls[|calls| - 1].now - calls[0].now) * c.perMinute
    decreases |calls|
  {
    var first, rest := calls[0], calls[1..];
    StepPurse(c, before, first, clock, key);
    if rest == [] {
      assert Allowed(rest, key) == 0 && (first.now - first.now) * c.perMinute == 0;
    } else {
      StepTableOk(c, before, first, clock);
      RatePotential(c, first.after, rest, first.now, key);
      PurseAfterStep(c, before, first, clock, key, rest[0].now);
      AddSpans(rest[0].now - first.now, rest[|rest| - 1].now - rest[0].now, c.perMinute);
    }
  }

  lemma AddSpans(a: int, b: int, p: int)
    ensures a * p + b * p == (a + b) * p
  {
  }

  /** Over any stretch of a run in which the key is not evicted, the calls allowed
      for it are at most the burst plus the rate times the elapsed time. */
  lemma RateBound(c: Config, before: Buckets, calls: seq<Call>, clock: int, key: string)
    requires ConfigOk(c) && TableOk(c, before, clock) && Run(c, before, calls, clock) && calls != []
    requires Tracked(calls, key)
    ensures Allowed(calls, key) * UNIT <=
            c.burst * UNIT + (calls[|calls| - 1].now - calls[0].now) * c.perMinute
  {
    RatePotential(c, before, calls, clock, key);
    PurseBounds(c, before, key, clock, calls[0].now);
  }

  // ---- and no less than the rate ----

  /** A call that leaves the key tracked takes exactly its token out of the purse, and
      the purse then fills by the drip up to the burst. */
  lemma PurseStep(c: Config, before: Buckets, call: Call, clock: int, key: string, later: int)
    requires ConfigOk(c) && TableOk(c, before, clock) && clock <= call.now <= later && Makes(c, before, call)
    requires key in call.after
    ensures
      var paid := if call.key == key && call.ok then UNIT else 0;
      Purse(c, call.after, key, later)
      >= Min(Cap(c), Purse(c, before, key, call.now) - paid + (later - call.now) * c.perMinute)
  {
    StepPurse(c, before, call, clock, key);
    if call.key != key {
      var b := before[key];
      MulNonNegative(later - call.now, c.perMinute);
      AddSpans(call.now - b.last, later - call.now, c.perMinute);
    }
  }

  /** One more call of the key allowed over the stretch would have passed what `start`
      and the drip could pay for. */
  ghost predicate Unpayable(c: Config, stretch: seq<Call>, key: string, start: int)
    requires stretch != []
  {
    (Allowed(stretch, key) + 1) * UNIT > start + (stretch[|stretch| - 1].now - stretch[0].now) * c.perMinute
  }

  ghost predicate AtTheLimit(c: Config, calls: seq<Call>, key: string, i: int) {
    0 <= i < |calls| && Unpayable(c, calls[i..], key, c.burst * UNIT)
  }

  lemma DeniedPurse(c: Config, before: Buckets, call: Call, clock: int, key: string)
    requires ConfigOk(c) && TableOk(c, before, clock) && clock <= call.now && Makes(c, before, call)
    requires call.key == key && !call.ok
    ensures Unpayable(c, [call], key, Purse(c, before, key, call.now))
  {
    var mid :| MadeRoom(c, before, key, mid)
               && call.ok == Ok(c, BucketAt(c, mid, key, call.now), call.now)
               && call.after == mid[key := After(c, BucketAt(c, mid, key, call.now), call.now)];
    assert BucketAt(c, mid, key, call.now) == BucketAt(c, before, key, call.now);
    assert Allowed([call], key) == Allowed([call][1..], key) == 0;
    assert (call.now - call.now) * c.perMinute == 0;
  }

  lemma EarlierUnpayable(c: Config, calls: seq<Call>, key: string, start: int)
    requires |calls| >= 2
    requires
      var paid := if calls[0].key == key && calls[0].ok then UNIT else 0;
      Unpayable(c, calls[1..], key, start - paid + (calls[1].now - calls[0].now) * c.perMinute)
    ensures Unpayable(c, calls, key, start)
  {
    AddSpans(calls[1].now - calls[0].now, calls[|calls| - 1].now - calls[1].now, c.perMinute);
  }

  lemma {:induction false} DenialTraced(c: Config, before: Buckets, calls: seq<Call>, clock: int, key: string)
    requires ConfigOk(c) && TableOk(c, before, clock) && Run(c, before, calls, clock) && calls != []
    requires Tracked(calls, key) && calls[|calls| - 1].key == key && !calls[|calls| - 1].ok
    ensures Unpayable(c, calls, key, Purse(c, before, key, calls[0].now)) || exists i :: AtTheLimit(c, calls, key, i)
    decreases |calls|
  {
    var first, rest := calls[0], calls[1..];
    if rest == [] {
      DeniedPurse(c, before, first, clock, key);
      assert calls == [first];
    } else {
      assert key in first.after;
      StepTableOk(c, before, first, clock);
      DenialTraced(c, first.after, rest, first.now, key);
      if j :| AtTheLimit(c, rest, key, j) {
        assert calls[j + 1..] == rest[j..];
        assert AtTheLimit(c, calls, key, j + 1);
      } else {
        PurseStep(c, before, first, clock, key, rest[0].now);
        if Purse(c, first.after, key, rest[0].now) >= Cap(c) {
          assert AtTheLimit(c, calls, key, 1);
        } else {
          EarlierUnpayable(c, calls, key, Purse(c, before, key, first.now));
        }
      }
    }
  }

  /** The converse of RateBound. Since a key came in, a call for it is denied only if
      allowing it would have passed the burst plus the rate over some stretch ending
      there. */
  lemma DenialIsEarned(c: Config, before: Buckets, calls: seq<Call>, clock: int, key: string)
    requires ConfigOk(c) && TableOk(c, before, clock) && Run(c, before, calls, clock) && calls != []
    requires key !in before && Tracked(calls, key)
    requires calls[|calls| - 1].key == key && !calls[|calls| - 1].ok
    ensures exists i :: AtTheLimit(c, calls, key, i)
  {
    DenialTraced(c, before, calls, clock, key);
    assert (calls[0].now - calls[0].now) * c.perMinute == 0;
    assert calls[0..] == calls;
    if Unpayable(c, calls, key, Purse(c, before, key, calls[0].now)) { assert AtTheLimit(c, calls, key, 0); }
  }

  // ---- the retry hint ----

  lemma HintIsQuotient(short: int, p: int, w: int, d: int)
    requires p >= 1 && short >= 0 && w == short / p
    ensures d < w ==> d * p < short
    ensures d > w ==> d * p >= short
    ensures d == w ==> (d * p >= short <==> short % p == 0)
  {
    assert short == w * p + short % p && 0 <= short % p < p;
    if d < w {
      MulNonNegative(w - 1 - d, p);
      assert (w - 1 - d) * p == w * p - p - d * p;
    } else if d > w {
      MulNonNegative(d - w - 1, p);
      assert (d - w - 1) * p == d * p - w * p - p;
    }
  }

  /** After a denial, a lone retry d nanoseconds later succeeds exactly when d
      drips in the missing tokens. The hint is the largest whole number of
      nanoseconds not beyond that, so it is enough by itself if and only if the
      rate divides the shortfall, and one nanosecond more always is. */
  lemma RetryHint(c: Config, b: Bucket, now: int, d: int)
    requires ConfigOk(c) && !Ok(c, b, now) && d >= 0
    ensures
      var denied := After(c, b, now);
      var retried := Ok(c, denied, now + d);
      && (retried <==> d * c.perMinute >= UNIT - denied.tokens)
      && (d < Hint(c, denied) ==> !retried)
      && (d > Hint(c, denied) ==> retried)
      && (d == Hint(c, denied) ==> (retried <==> (UNIT - denied.tokens) % c.perMinute == 0))
  {
    var denied := After(c, b, now);
    HintIsQuotient(UNIT - denied.tokens, c.perMinute, Hint(c, denied), d);
    assert Refilled(c, denied, now + d) == Min(Cap(c), denied.tokens + d * c.perMinute);
  }

  // ---- eviction is unobservable for idle keys ----

  /** Dropping a bucket changes neither the next decision nor what it leaves if
      and only if the bucket would have refilled to the burst anyway. */
  lemma EvictionUnobservable(c: Config, b: Bucket, now: int)
    requires ConfigOk(c)
    ensures (Ok(c, b, now) == Ok(c, Fresh(c, now), now) && After(c, b, now) == After(c, Fresh(c, now), now))
            <==> b.tokens + (now - b.last) * c.perMinute >= Cap(c)
    ensures b.tokens >= 0 && (now - b.last) * c.perMinute >= Cap(c) ==>
            After(c, b, now) == After(c, Fresh(c, now), now)
  {
    assert (now - now) * c.perMinute == 0;
  }
}
