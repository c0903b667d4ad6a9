/** The Redis limiter: a counter per key and aligned time bucket, incremented by
    any number of nodes, with a TTL stamped once per counter. Time is in
    nanoseconds since the epoch. */
module FixedWindow {
  import opened Arithmetic
  import opened Lists
  import opened Wrappers

  datatype Config = Config(limit: int, window: int)

  predicate ConfigOk(c: Config) {
    c.limit >= 1 && c.window >= 1
  }

  /** Go's integer division truncates toward zero. */
  function GoDiv(a: int, b: int): int
    requires b > 0
  {
    if a >= 0 then a / b else -((-a) / b)
  }

  function BucketOf(c: Config, now: int): int
    requires ConfigOk(c)
  {
    GoDiv(now, c.window)
  }

  /** One Redis counter: its value and, once EXPIRE NX took effect, its expiry. */
  datatype Counter = Counter(count: int, expires: Option<int>)

  /** The server-side key: the caller's key and the aligned bucket. */
  datatype Key = Key(caller: string, bucket: int)

  type Server = map<Key, Counter>

  predicate Expired(x: Counter, now: int) {
    x.expires.Some? && x.expires.value <= now
  }

  /** The count INCR returns at time now: an expired counter starts over. */
  function Incremented(s: Server, k: Key, now: int): Counter {
    if k in s && !Expired(s[k], now) then s[k].(count := s[k].count + 1) else Counter(1, None)
  }

  function Stamped(c: Config, x: Counter, now: int, expireOk: bool): Counter {
    if expireOk && x.expires.None? then x.(expires := Some(now + c.window)) else x
  }

  /** One Allow against a reachable server; EXPIRE may fail on its own. */
  function After(c: Config, s: Server, caller: string, now: int, expireOk: bool): Server
    requires ConfigOk(c)
  {
    var k := Key(caller, BucketOf(c, now));
    s[k := Stamped(c, Incremented(s, k, now), now, expireOk)]
  }

  predicate Ok(c: Config, s: Server, caller: string, now: int)
    requires ConfigOk(c)
  {
    Incremented(s, Key(caller, BucketOf(c, now)), now).count <= c.limit
  }

  function Hint(c: Config, now: int): int
    requires ConfigOk(c)
  {
    var remaining := (BucketOf(c, now) + 1) * c.window - now;
    if remaining < 0 then 0 else remaining
  }

  /** A node's limiter. Nodes keep no state of their own; they share the server. */
  class Redis {
    var counters: Server

    constructor ()
      ensures counters == map[]
    {
      counters := map[];
    }

    /** INCR then EXPIRE NX; `incrOk` and `expireOk` are the server's answers. */
    method Allow(c: Config, failClosed: bool, caller: string, now: int, incrOk: bool, expireOk: bool)
      returns (ok: bool, wait: int)
      requires ConfigOk(c)
      modifies this
      ensures counters == if incrOk then After(c, old(counters), caller, now, expireOk) else old(counters)
      ensures incrOk ==> ok == Ok(c, old(counters), caller, now) && wait == if ok then 0 else Hint(c, now)
      ensures !incrOk ==> ok == !failClosed && wait == if failClosed then c.window else 0
    {
      if !incrOk {
        if failClosed { return false, c.window; }
        return true, 0;
      }
      var k := Key(caller, BucketOf(c, now));
      var n := 1;
      if k in counters && !(counters[k].expires.Some? && counters[k].expires.value <= now) {
        n := counters[k].count + 1;
        counters := counters[k := counters[k].(count := n)];
      } else {
        counters := counters[k := Counter(1, None)];
      }
      if expireOk && counters[k].expires.None? {
        counters := counters[k := counters[k].(expires := Some(now + c.window))];
      }
      if n > c.limit {
        var bucket := BucketOf(c, now);
        var remaining := (bucket + 1) * c.window - now;
        if remaining < 0 { remaining := 0; }
        return false, remaining;
      }
      return true, 0;
    }
  }

  // ---- bucket arithmetic ----

  lemma BucketSpan(c: Config, now: int)
    requires ConfigOk(c) && now >= 0
    ensures BucketOf(c, now) * c.window <= now < (BucketOf(c, now) + 1) * c.window
  {
    assert now == (now / c.window) * c.window + now % c.window;
  }

  /** The denial hint lies in (0, window] exactly when the clock is past the epoch
      or on a bucket boundary, and then lands on the start of the next bucket;
      before the epoch truncating division rounds the bucket up. */
  lemma HintIsNextBucket(c: Config, now: int)
    requires ConfigOk(c)
    ensures (0 < Hint(c, now) <= c.window) <==> (now >= 0 || (-now) % c.window == 0)
    ensures now >= 0 || (-now) % c.window == 0 ==>
              now + Hint(c, now) == (BucketOf(c, now) + 1) * c.window
              && BucketOf(c, now + Hint(c, now)) == BucketOf(c, now) + 1
  {
    var b := BucketOf(c, now);
    assert (b + 1) * c.window == b * c.window + c.window;
    if now >= 0 {
      BucketSpan(c, now);
      BucketUnique(c, now + Hint(c, now), b + 1);
    } else {
      HintBeforeEpoch(c, now);
    }
  }

  /** Before the epoch, off a boundary, truncation skips the whole window. */
  lemma HintSkips(c: Config, now: int, q: int, r: int)
    requires ConfigOk(c) && -now == q * c.window + r && 0 < r < c.window && BucketOf(c, now) == -q
    ensures Hint(c, now) > c.window
  {
    assert (-q + 1) * c.window == -(q * c.window) + c.window;
  }

  lemma HintOnBoundary(c: Config, now: int, q: int)
    requires ConfigOk(c) && now < 0 && -now == q * c.window && BucketOf(c, now) == -q
    ensures Hint(c, now) == c.window
    ensures now + Hint(c, now) == (BucketOf(c, now) + 1) * c.window
    ensures BucketOf(c, now + Hint(c, now)) == BucketOf(c, now) + 1
  {
    assert (-q + 1) * c.window == -(q * c.window) + c.window;
    if q <= 0 { MulMonotone(q, 0, c.window); }
    assert (q - 1) * c.window == q * c.window - c.window;
    MulMonotone(0, q - 1, c.window);
    Quotient(q - 1, c.window);
    assert now + c.window == -((q - 1) * c.window);
  }

  lemma HintBeforeEpoch(c: Config, now: int)
    requires ConfigOk(c) && now < 0
    ensures (0 < Hint(c, now) <= c.window) <==> (-now) % c.window == 0
    ensures (-now) % c.window == 0 ==>
              now + Hint(c, now) == (BucketOf(c, now) + 1) * c.window
              && BucketOf(c, now + Hint(c, now)) == BucketOf(c, now) + 1
  {
    var q, r := (-now) / c.window, (-now) % c.window;
    assert -now == q * c.window + r;
    if r == 0 { HintOnBoundary(c, now, q); } else { HintSkips(c, now, q, r); }
  }

  lemma Quotient(k: nat, w: int)
    requires w > 0
    ensures (k * w) / w == k
  {
    var d := (k * w) / w;
    assert k * w == d * w + (k * w) % w;
    assert (d + 1) * w == d * w + w && (k + 1) * w == k * w + w;
    if d < k { MulMonotone(d + 1, k, w); }
    if k < d { MulMonotone(k + 1, d, w); }
  }

  lemma BucketUnique(c: Config, now: int, b: int)
    requires ConfigOk(c) && now >= 0 && b * c.window <= now < (b + 1) * c.window
    ensures BucketOf(c, now) == b
  {
    BucketSpan(c, now);
    var d := BucketOf(c, now);
    if d < b { MulMonotone(d + 1, b, c.window); }
    if b < d { MulMonotone(b + 1, d, c.window); }
  }

  lemma BucketMonotone(c: Config, s: int, t: int)
    requires ConfigOk(c) && 0 <= s <= t
    ensures BucketOf(c, s) <= BucketOf(c, t)
  {
    BucketSpan(c, s);
    BucketSpan(c, t);
    if BucketOf(c, t) < BucketOf(c, s) { MulMonotone(BucketOf(c, t) + 1, BucketOf(c, s), c.window); }
  }

  /** An interval no longer than the window touches at most two buckets. */
  lemma TwoBuckets(c: Config, s: int, t: int)
    requires ConfigOk(c) && 0 <= s <= t <= s + c.window
    ensures BucketOf(c, t) == BucketOf(c, s) || BucketOf(c, t) == BucketOf(c, s) + 1
  {
    BucketMonotone(c, s, t);
    BucketSpan(c, s);
    BucketSpan(c, t);
    var b := BucketOf(c, s);
    assert (b + 2) * c.window == (b + 1) * c.window + c.window;
    if BucketOf(c, t) >= b + 2 {
      MulMonotone(b + 2, BucketOf(c, t), c.window);
    }
  }

  // ---- every run of every node ----

  /** One Allow by some node. */
  datatype Call = Call(caller: string, now: int, expireOk: bool)

  /** All nodes read one clock, after the epoch, that does not run backwards. */
  ghost predicate Clocked(calls: seq<Call>, clock: int)
    decreases |calls|
  {
    clock >= 0 && (calls == [] || (clock <= calls[0].now && Clocked(calls[1..], calls[0].now)))
  }

  /** The times at which a caller was allowed, oldest first. */
  ghost function Allowed(c: Config, s: Server, calls: seq<Call>, caller: string): seq<int>
    requires ConfigOk(c)
    decreases |calls|
  {
    if calls == [] then []
    else
      var x := calls[0];
      (if x.caller == caller && Ok(c, s, caller, x.now) then [x.now] else [])
      + Allowed(c, After(c, s, x.caller, x.now, x.expireOk), calls[1..], caller)
  }

  /** A counter's TTL never ends inside its own bucket. */
  ghost predicate Outlives(c: Config, s: Server)
    requires ConfigOk(c)
  {
    forall k | k in s && s[k].expires.Some? :: s[k].expires.value >= (k.bucket + 1) * c.window
  }

  lemma OutlivesStep(c: Config, s: Server, x: Call)
    requires ConfigOk(c) && Outlives(c, s) && x.now >= 0
    ensures Outlives(c, After(c, s, x.caller, x.now, x.expireOk))
  {
    BucketSpan(c, x.now);
    var b := BucketOf(c, x.now);
    assert (b + 1) * c.window == b * c.window + c.window;
  }

  /** So no call of a bucket finds its counter reset. */
  lemma NeverResetInside(c: Config, s: Server, caller: string, now: int)
    requires ConfigOk(c) && Outlives(c, s) && now >= 0
    ensures
      var k := Key(caller, BucketOf(c, now));
      k in s ==> !Expired(s[k], now) && Incremented(s, k, now).count == s[k].count + 1
  {
    BucketSpan(c, now);
  }

  function CountOf(s: Server, k: Key): int {
    if k in s then s[k].count else 0
  }

  /** How many of the times lie in bucket b. */
  ghost function InBucket(c: Config, times: seq<int>, b: int): nat
    requires ConfigOk(c)
  {
    if times == [] then 0
    else (if BucketOf(c, times[0]) == b then 1 else 0) + InBucket(c, times[1..], b)
  }

  lemma InBucketHead(c: Config, t: int, rest: seq<int>, b: int)
    requires ConfigOk(c)
    ensures InBucket(c, [t] + rest, b) == (if BucketOf(c, t) == b then 1 else 0) + InBucket(c, rest, b)
  {
    assert ([t] + rest)[1..] == rest;
  }

  /** How many of a caller's calls fall into bucket b. */
  ghost function Asked(c: Config, calls: seq<Call>, caller: string, b: int): nat
    requires ConfigOk(c)
  {
    if calls == [] then 0
    else
      (if calls[0].caller == caller && BucketOf(c, calls[0].now) == b then 1 else 0) + Asked(c, calls[1..], caller, b)
  }

  function Spare(c: Config, s: Server, k: Key): int {
    if CountOf(s, k) >= c.limit then 0 else c.limit - CountOf(s, k)
  }

  /** Of a bucket's calls exactly the first ones that the counter spares get through. */
  lemma {:induction false} BucketQuota(c: Config, s: Server, calls: seq<Call>, clock: int, caller: string, b: int)
    requires ConfigOk(c) && Outlives(c, s) && Clocked(calls, clock)
    ensures
      var asked, spare := Asked(c, calls, caller, b), Spare(c, s, Key(caller, b));
      InBucket(c, Allowed(c, s, calls, caller), b) == if asked < spare then asked else spare
    decreases |calls|
  {
    if calls != [] {
      var x := calls[0];
      var next := After(c, s, x.caller, x.now, x.expireOk);
      var rest := Allowed(c, next, calls[1..], caller);
      OutlivesStep(c, s, x);
      BucketQuota(c, next, calls[1..], x.now, caller, b);
      NeverResetInside(c, s, x.caller, x.now);
      InBucketHead(c, x.now, rest, b);
      assert [] + rest == rest;
    }
  }

  /** A caller gets exactly `limit` of its calls through per aligned bucket, or all
      of them if they are fewer, however many nodes share the counter, whatever the
      other callers do and whatever EXPIRE does. */
  lemma BucketBound(c: Config, calls: seq<Call>, caller: string, b: int)
    requires ConfigOk(c) && Clocked(calls, 0)
    ensures
      var asked := Asked(c, calls, caller, b);
      InBucket(c, Allowed(c, map[], calls, caller), b) == if asked < c.limit then asked else c.limit
  {
    BucketQuota(c, map[], calls, 0, caller, b);
  }

  // ---- any interval as long as the window ----

  predicate Ascending(times: seq<int>) {
    forall i, j | 0 <= i < j < |times| :: times[i] <= times[j]
  }

  lemma AscendingCons(t: int, rest: seq<int>)
    requires Ascending(rest) && forall u | u in rest :: t <= u
    ensures Ascending([t] + rest)
  {
    forall i, j | 0 <= i < j < |[t] + rest|
      ensures ([t] + rest)[i] <= ([t] + rest)[j]
    {
      assert rest[j - 1] in rest;
    }
  }

  lemma {:induction false} AllowedAscends(c: Config, s: Server, calls: seq<Call>, clock: int, caller: string)
    requires ConfigOk(c) && Clocked(calls, clock)
    ensures Ascending(Allowed(c, s, calls, caller))
    ensures forall t | t in Allowed(c, s, calls, caller) :: clock <= t
    decreases |calls|
  {
    if calls != [] {
      var x := calls[0];
      var rest := Allowed(c, After(c, s, x.caller, x.now, x.expireOk), calls[1..], caller);
      AllowedAscends(c, After(c, s, x.caller, x.now, x.expireOk), calls[1..], x.now, caller);
      assert [] + rest == rest;
      AscendingCons(x.now, rest);
    }
  }

  lemma {:induction false} InBucketSlice(c: Config, times: seq<int>, b: int, i: nat, j: nat)
    requires ConfigOk(c) && i <= j <= |times|
    ensures InBucket(c, times[i..j], b) <= InBucket(c, times, b)
    decreases |times|
  {
    if times != [] && i < j {
      if i == 0 {
        assert times[0..j][0] == times[0] && times[0..j][1..] == times[1..][..j - 1];
        assert times[1..][0..j - 1] == times[1..][..j - 1];
        InBucketSlice(c, times[1..], b, 0, j - 1);
      } else {
        assert times[i..j] == times[1..][i - 1..j - 1];
        InBucketSlice(c, times[1..], b, i - 1, j - 1);
      }
    } else {
      assert times[i..j] == [];
    }
  }

  lemma {:induction false} AllInTwo(c: Config, times: seq<int>, b: int)
    requires ConfigOk(c) && forall t | t in times :: BucketOf(c, t) == b || BucketOf(c, t) == b + 1
    ensures |times| == InBucket(c, times, b) + InBucket(c, times, b + 1)
  {
    if times != [] { AllInTwo(c, times[1..], b); }
  }

  lemma SpanInTwo(c: Config, times: seq<int>, i: nat, j: nat)
    requires ConfigOk(c) && Ascending(times) && forall t | t in times :: 0 <= t
    requires i <= j < |times| && times[j] <= times[i] + c.window
    ensures forall t | t in times[i..j + 1] ::
              BucketOf(c, t) == BucketOf(c, times[i]) || BucketOf(c, t) == BucketOf(c, times[i]) + 1
  {
    forall t | t in times[i..j + 1]
      ensures BucketOf(c, t) == BucketOf(c, times[i]) || BucketOf(c, t) == BucketOf(c, times[i]) + 1
    {
      var m :| i <= m <= j && times[m] == t;
      assert times[i] in times;
      assert times[i] <= times[m] <= times[j];
      TwoBuckets(c, times[i], t);
    }
  }

  lemma SpanBound(c: Config, times: seq<int>, i: nat, j: nat)
    requires ConfigOk(c) && Ascending(times) && forall t | t in times :: 0 <= t
    requires i <= j < |times| && times[j] <= times[i] + c.window
    requires forall b :: InBucket(c, times, b) <= c.limit
    ensures j - i + 1 <= 2 * c.limit
  {
    var b := BucketOf(c, times[i]);
    SpanInTwo(c, times, i, j);
    AllInTwo(c, times[i..j + 1], b);
    InBucketSlice(c, times, b, i, j + 1);
    InBucketSlice(c, times, b + 1, i, j + 1);
  }

  /** In any interval no longer than the window at most twice the limit gets
      through: the end of one bucket and the start of the next. */
  lemma IntervalBound(c: Config, calls: seq<Call>, caller: string, i: nat, j: nat)
    requires ConfigOk(c) && Clocked(calls, 0)
    requires i <= j < |Allowed(c, map[], calls, caller)|
    requires Allowed(c, map[], calls, caller)[j] <= Allowed(c, map[], calls, caller)[i] + c.window
    ensures j - i + 1 <= 2 * c.limit
  {
    var times := Allowed(c, map[], calls, caller);
    AllowedAscends(c, map[], calls, 0, caller);
    forall b
      ensures InBucket(c, times, b) <= c.limit
    {
      BucketBound(c, calls, caller, b);
    }
    SpanBound(c, times, i, j);
  }

  // ---- the bound is reached ----

  /** n calls of a caller at one instant. */
  function Burst(caller: string, now: int, n: nat): seq<Call> {
    if n == 0 then [] else [Call(caller, now, true)] + Burst(caller, now, n - 1)
  }

  function Times(now: int, n: nat): (times: seq<int>)
    ensures |times| == n && forall i | 0 <= i < n :: times[i] == now
  {
    seq(n, _ => now)
  }

  ghost function AfterAll(c: Config, s: Server, calls: seq<Call>): Server
    requires ConfigOk(c)
    decreases |calls|
  {
    if calls == [] then s
    else AfterAll(c, After(c, s, calls[0].caller, calls[0].now, calls[0].expireOk), calls[1..])
  }

  lemma {:induction false} AllowedConcat(c: Config, s: Server, a: seq<Call>, b: seq<Call>, caller: string)
    requires ConfigOk(c)
    ensures Allowed(c, s, a + b, caller) == Allowed(c, s, a, caller) + Allowed(c, AfterAll(c, s, a), b, caller)
    decreases |a|
  {
    if a == [] {
      assert a + b == b;
      assert [] + Allowed(c, s, b, caller) == Allowed(c, s, b, caller);
    } else {
      var x := a[0];
      var next := After(c, s, x.caller, x.now, x.expireOk);
      var head := if x.caller == caller && Ok(c, s, caller, x.now) then [x.now] else [];
      assert (a + b)[1..] == a[1..] + b && (a + b)[0] == x;
      AllowedConcat(c, next, a[1..], b, caller);
      ConcatAssoc(head, Allowed(c, next, a[1..], caller), Allowed(c, AfterAll(c, next, a[1..]), b, caller));
    }
  }

  /** The key's counter, if any, is within the limit by n and not expired. */
  ghost predicate Room(c: Config, s: Server, k: Key, now: int, n: nat) {
    CountOf(s, k) + n <= c.limit && (k in s ==> !Expired(s[k], now))
  }

  lemma {:induction false} BurstAllowed(c: Config, s: Server, caller: string, now: int, n: nat, other: Key)
    requires ConfigOk(c) && Room(c, s, Key(caller, BucketOf(c, now)), now, n)
    requires other != Key(caller, BucketOf(c, now))
    ensures Allowed(c, s, Burst(caller, now, n), caller) == Times(now, n)
    ensures other in AfterAll(c, s, Burst(caller, now, n)) <==> other in s
    decreases n
  {
    if n > 0 {
      var calls := Burst(caller, now, n);
      assert calls[1..] == Burst(caller, now, n - 1);
      BurstAllowed(c, After(c, s, caller, now, true), caller, now, n - 1, other);
      assert Times(now, n) == [now] + Times(now, n - 1);
    }
  }

  lemma {:induction false} BurstClocked(caller: string, now: int, n: nat, rest: seq<Call>, clock: int)
    requires 0 <= clock <= now && Clocked(rest, now)
    ensures Clocked(Burst(caller, now, n) + rest, clock)
    decreases n
  {
    var calls := Burst(caller, now, n) + rest;
    if n == 0 {
      assert calls == rest;
    } else {
      assert calls[1..] == Burst(caller, now, n - 1) + rest;
      BurstClocked(caller, now, n - 1, rest, now);
    }
  }

  /** Twice the limit is reached, for every limit and window: a burst in the last
      nanosecond of one bucket and another in the first of the next. */
  lemma BoundIsTight(c: Config, caller: string)
    requires ConfigOk(c)
    ensures
      var calls := Burst(caller, c.window - 1, c.limit) + Burst(caller, c.window, c.limit);
      && Clocked(calls, 0)
      && Allowed(c, map[], calls, caller) == Times(c.window - 1, c.limit) + Times(c.window, c.limit)
  {
    var first, second := Burst(caller, c.window - 1, c.limit), Burst(caller, c.window, c.limit);
    assert 1 * c.window == c.window && 2 * c.window == c.window + c.window;
    BucketUnique(c, c.window - 1, 0);
    BucketUnique(c, c.window, 1);
    BurstAllowed(c, map[], caller, c.window - 1, c.limit, Key(caller, 1));
    BurstAllowed(c, AfterAll(c, map[], first), caller, c.window, c.limit, Key(caller, 0));
    AllowedConcat(c, map[], first, second, caller);
    assert second + [] == second;
    BurstClocked(caller, c.window, c.limit, [], c.window - 1);
    BurstClocked(caller, c.window - 1, c.limit, second, 0);
  }
}
