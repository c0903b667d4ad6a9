/** The signing-key cache: keys fetched as one document, kept for a ttl, refetched
    no more often than a throttle allows. Times are in nanoseconds. */
module Jwks {
  import opened Arithmetic
  import opened Wrappers

  datatype PublicKey = PublicKey(modulus: nat, exponent: nat)

  /** One entry of a fetched document; a number that does not decode is None. */
  datatype Jwk = Jwk(kid: string, kty: string, alg: string, usage: string, n: Option<nat>, e: Option<nat>)

  /** The RSA signing key an entry holds, if it is usable as one. */
  function KeyIn(k: Jwk): Option<PublicKey> {
    if k.kid == "" || k.kty != "RSA" || (k.alg != "" && k.alg != "RS256") then None
    else if k.usage != "" && k.usage != "sig" then None
    else if k.n.None? || k.e.None? || k.e.value == 0 || k.e.value > 0x8000_0000 then None
    else Some(PublicKey(k.n.value, k.e.value))
  }

  /** The usable keys of a document by id; a later entry replaces an earlier one. */
  function Usable(doc: seq<Jwk>): map<string, PublicKey>
    decreases |doc|
  {
    if doc == [] then map[]
    else
      var rest, last := Usable(doc[..|doc| - 1]), doc[|doc| - 1];
      if KeyIn(last).Some? then rest[last.kid := KeyIn(last).value] else rest
  }

  datatype Config = Config(ttl: int, minRefresh: int)

  predicate ConfigOk(c: Config) {
    c.ttl >= 1 && c.minRefresh >= 0
  }

  /** What the key endpoint answers: nothing usable at all, or a document. */
  datatype Response = Unreachable | Document(keys: seq<Jwk>)

  /** The time of something that may not have happened yet. */
  datatype Instant = Never | At(time: int)

  predicate Within(i: Instant, now: int, span: int) {
    i.At? && now - i.time <= span
  }

  predicate Throttled(c: Config, lastFetch: Instant, now: int) {
    lastFetch.At? && now - lastFetch.time < c.minRefresh
  }

  datatype State = State(keys: map<string, PublicKey>, fetchedAt: Instant, lastFetch: Instant)

  const EMPTY := State(map[], Never, Never)

  predicate Fetched(r: Response) {
    r.Document? && |Usable(r.keys)| > 0
  }

  function Refreshed(s: State, now: int, r: Response): State {
    if Fetched(r) then State(Usable(r.keys), At(now), At(now)) else s.(lastFetch := At(now))
  }

  predicate Hit(c: Config, s: State, kid: string, now: int) {
    kid in s.keys && Within(s.fetchedAt, now, c.ttl)
  }

  predicate Fetches(c: Config, s: State, kid: string, now: int) {
    !Hit(c, s, kid, now) && !Throttled(c, s.lastFetch, now)
  }

  function Looked(c: Config, s: State, kid: string, now: int, r: Response): State {
    if Fetches(c, s, kid, now) then Refreshed(s, now, r) else s
  }

  /** None is an error: the fetch failed, or no such key. */
  function KeyFor(c: Config, s: State, kid: string, now: int, r: Response): Option<PublicKey> {
    if Fetches(c, s, kid, now) && !Fetched(r) then None
    else
      var t := Looked(c, s, kid, now, r);
      if kid in t.keys then Some(t.keys[kid]) else None
  }

  class Cache {
    const config: Config
    var keys: map<string, PublicKey>
    var fetchedAt: Instant
    var lastFetch: Instant

    ghost function Abs(): State
      reads this
    {
      State(keys, fetchedAt, lastFetch)
    }

    constructor (ttl: int, minRefresh: int)
      ensures ConfigOk(config) && Abs() == EMPTY
      ensures config.ttl == if ttl <= 0 then 600_000_000_000 else ttl
      ensures config.minRefresh == if minRefresh < 0 then 0 else minRefresh
    {
      config := Config(if ttl <= 0 then 600_000_000_000 else ttl, if minRefresh < 0 then 0 else minRefresh);
      keys, fetchedAt, lastFetch := map[], Never, Never;
    }

    method RefreshLocked(now: int, r: Response) returns (ok: bool)
      modifies this
      ensures Abs() == Refreshed(old(Abs()), now, r)
      ensures ok == Fetched(r)
    {
      lastFetch := At(now);
      if r.Unreachable? { return false; }
      var fresh_keys: map<string, PublicKey> := map[];
      for i := 0 to |r.keys|
        invariant fresh_keys == Usable(r.keys[..i])
      {
        assert r.keys[..i + 1][..i] == r.keys[..i];
        var pk := KeyIn(r.keys[i]);
        if pk.None? { continue; }
        fresh_keys := fresh_keys[r.keys[i].kid := pk.value];
      }
      assert r.keys[..|r.keys|] == r.keys;
      if |fresh_keys| == 0 { return false; }
      keys, fetchedAt := fresh_keys, At(now);
      return true;
    }

    method LookUp(kid: string, now: int, r: Response) returns (key: Option<PublicKey>)
      modifies this
      ensures Abs() == Looked(config, old(Abs()), kid, now, r)
      ensures key == KeyFor(config, old(Abs()), kid, now, r)
    {
      if kid in keys && fetchedAt.At? && now - fetchedAt.time <= config.ttl { return Some(keys[kid]); }
      if lastFetch.Never? || now - lastFetch.time >= config.minRefresh {
        var ok := RefreshLocked(now, r);
        if !ok { return None; }
      }
      if kid in keys { return Some(keys[kid]); }
      return None;
    }
  }

  // ---- runs ----

  /** One lookup: when, of what, and what the endpoint would answer just then. */
  datatype Call = Call(kid: string, now: int, response: Response)

  ghost function Run(c: Config, s: State, calls: seq<Call>): State
    decreases |calls|
  {
    if calls == [] then s
    else Run(c, Looked(c, s, calls[0].kid, calls[0].now, calls[0].response), calls[1..])
  }

  /** When the endpoint was asked, oldest first. */
  ghost function Attempts(c: Config, s: State, calls: seq<Call>): seq<int>
    decreases |calls|
  {
    if calls == [] then []
    else
      var x := calls[0];
      (if Fetches(c, s, x.kid, x.now) then [x.now] else [])
      + Attempts(c, Looked(c, s, x.kid, x.now, x.response), calls[1..])
  }

  /** Neighbours are at least gap apart, the first at least gap after `since`. */
  ghost predicate Spaced(times: seq<int>, gap: int, since: Instant) {
    && (times != [] && since.At? ==> times[0] - since.time >= gap)
    && forall i | 0 < i < |times| :: times[i] - times[i - 1] >= gap
  }

  lemma SpacedCons(t: int, times: seq<int>, gap: int, since: Instant)
    requires Spaced(times, gap, At(t)) && (since.At? ==> t - since.time >= gap)
    ensures Spaced([t] + times, gap, since)
  {
    var all := [t] + times;
    forall i | 0 < i < |all| ensures all[i] - all[i - 1] >= gap {
      assert all[i] == times[i - 1];
      if i > 1 { assert all[i - 1] == times[i - 2]; }
    }
  }

  lemma {:induction false} AttemptsSpaced(c: Config, s: State, calls: seq<Call>)
    requires ConfigOk(c)
    ensures Spaced(Attempts(c, s, calls), c.minRefresh, s.lastFetch)
    decreases |calls|
  {
    if calls != [] {
      var x := calls[0];
      var t := Looked(c, s, x.kid, x.now, x.response);
      AttemptsSpaced(c, t, calls[1..]);
      var rest := Attempts(c, t, calls[1..]);
      if Fetches(c, s, x.kid, x.now) {
        SpacedCons(x.now, rest, c.minRefresh, s.lastFetch);
      } else {
        assert [] + rest == rest;
      }
    }
  }

  lemma {:induction false} SpacedFar(times: seq<int>, gap: int, i: nat, j: nat)
    requires Spaced(times, gap, Never) && gap >= 0 && i <= j < |times|
    ensures times[j] - times[i] >= (j - i) * gap
    decreases j
  {
    if i < j {
      SpacedFar(times, gap, i, j - 1);
      assert (j - i) * gap == (j - 1 - i) * gap + gap;
    }
  }

  /** However many lookups miss, the endpoint is asked at most 1 + T / minRefresh
      times in any stretch of length T. */
  lemma AttemptsBounded(c: Config, calls: seq<Call>, i: nat, j: nat, span: nat)
    requires ConfigOk(c) && c.minRefresh > 0 && i <= j < |Attempts(c, EMPTY, calls)|
    requires Attempts(c, EMPTY, calls)[j] - Attempts(c, EMPTY, calls)[i] <= span
    ensures j - i + 1 <= 1 + span / c.minRefresh
  {
    var times := Attempts(c, EMPTY, calls);
    AttemptsSpaced(c, EMPTY, calls);
    SpacedFar(times, c.minRefresh, i, j);
    Fits(j - i, c.minRefresh, span);
  }

  lemma Fits(k: nat, gap: int, span: nat)
    requires gap > 0 && k * gap <= span
    ensures k <= span / gap
  {
    var q := span / gap;
    assert span == q * gap + span % gap;
    assert (q + 1) * gap == q * gap + gap;
    if k > q { MulMonotone(q + 1, k, gap); }
  }

  // ---- which document a key comes from ----

  /** The last fetch that brought usable keys: when, and its document. */
  datatype Source = NoSource | Source(at: int, doc: seq<Jwk>)

  ghost function LastGood(c: Config, s: State, calls: seq<Call>, before: Source): Source
    decreases |calls|
  {
    if calls == [] then before
    else
      var x := calls[0];
      LastGood(c, Looked(c, s, x.kid, x.now, x.response), calls[1..],
               if Fetches(c, s, x.kid, x.now) && Fetched(x.response) then Source(x.now, x.response.keys) else before)
  }

  ghost predicate Holds(s: State, src: Source) {
    if src.NoSource? then s.keys == map[] && s.fetchedAt == Never
    else s.keys == Usable(src.doc) && s.fetchedAt == At(src.at)
  }

  lemma {:induction false} RunHolds(c: Config, s: State, calls: seq<Call>, before: Source)
    requires Holds(s, before)
    ensures Holds(Run(c, s, calls), LastGood(c, s, calls, before))
    decreases |calls|
  {
    if calls != [] {
      var x := calls[0];
      RunHolds(c, Looked(c, s, x.kid, x.now, x.response), calls[1..],
               if Fetches(c, s, x.kid, x.now) && Fetched(x.response) then Source(x.now, x.response.keys) else before);
    }
  }

  /** A key that is returned is the one the last successful document holds under
      that id, counting the fetch this lookup itself may make. */
  lemma KeyIsFromLastDocument(c: Config, calls: seq<Call>, x: Call)
    ensures
      var s := Run(c, EMPTY, calls);
      var key := KeyFor(c, s, x.kid, x.now, x.response);
      var src := LastGood(c, s, [x], LastGood(c, EMPTY, calls, NoSource));
      key.Some? ==> src.Source? && x.kid in Usable(src.doc) && key.value == Usable(src.doc)[x.kid]
  {
    RunHolds(c, EMPTY, calls, NoSource);
    RunHolds(c, Run(c, EMPTY, calls), [x], LastGood(c, EMPTY, calls, NoSource));
    assert [x][1..] == [];
  }

  // ---- how old a key can be ----

  /** The lookup returns a key from a document older than the ttl. */
  predicate ServedStale(c: Config, s: State, x: Call) {
    && KeyFor(c, s, x.kid, x.now, x.response).Some?
    && !Within(Looked(c, s, x.kid, x.now, x.response).fetchedAt, x.now, c.ttl)
  }

  /** That happens exactly when the key is known, its document has expired, and the
      last attempt to fetch, whatever came of it, is still within the throttle. */
  lemma StaleExactlyWhenThrottled(c: Config, s: State, x: Call)
    requires ConfigOk(c)
    ensures ServedStale(c, s, x) <==>
            x.kid in s.keys && !Within(s.fetchedAt, x.now, c.ttl) && Throttled(c, s.lastFetch, x.now)
  {
  }

  ghost predicate AllGood(calls: seq<Call>) {
    forall i | 0 <= i < |calls| :: Fetched(calls[i].response)
  }

  lemma {:induction false} GoodRun(c: Config, s: State, calls: seq<Call>)
    requires AllGood(calls) && s.fetchedAt == s.lastFetch
    ensures Run(c, s, calls).fetchedAt == Run(c, s, calls).lastFetch
    decreases |calls|
  {
    if calls != [] { GoodRun(c, Looked(c, s, calls[0].kid, calls[0].now, calls[0].response), calls[1..]); }
  }

  /** While no fetch fails, a returned key is never older than the ttl, provided
      the throttle is no longer than the ttl. */
  lemma NeverStaleWhileFetchesSucceed(c: Config, calls: seq<Call>, x: Call)
    requires ConfigOk(c) && c.minRefresh <= c.ttl && AllGood(calls)
    ensures !ServedStale(c, Run(c, EMPTY, calls), x)
  {
    GoodRun(c, EMPTY, calls);
    StaleExactlyWhenThrottled(c, Run(c, EMPTY, calls), x);
  }

  /** After a failed refetch the lookup that made it gets an error, yet the next
      one within the throttle is given the expired key. */
  lemma ExpiredKeyReturnsAfterFailure(c: Config, s: State, kid: string, now: int, later: int, r: Response)
    requires ConfigOk(c) && kid in s.keys && !Within(s.fetchedAt, now, c.ttl) && !Throttled(c, s.lastFetch, now)
    requires now <= later < now + c.minRefresh
    ensures KeyFor(c, s, kid, now, Unreachable) == None
    ensures KeyFor(c, Looked(c, s, kid, now, Unreachable), kid, later, r) == Some(s.keys[kid])
  {
  }

  // ---- which keys a document holds, and when one is found ----

  /** An RSA key for RS256 signatures, with a name and an exponent Go can hold. */
  predicate Signs(k: Jwk) {
    && k.kid != "" && k.kty == "RSA" && k.alg in {"", "RS256"} && k.usage in {"", "sig"}
    && k.n.Some? && k.e.Some? && 1 <= k.e.value <= 2147483648
  }

  ghost predicate LastNamed(doc: seq<Jwk>, kid: string, i: int) {
    && 0 <= i < |doc| && doc[i].kid == kid && Signs(doc[i])
    && forall j | i < j < |doc| && doc[j].kid == kid :: !Signs(doc[j])
  }

  /** A document's key for an id is that of its last signing entry of that id. */
  lemma {:induction false} UsableMeans(doc: seq<Jwk>, kid: string)
    ensures kid in Usable(doc) <==> exists i :: LastNamed(doc, kid, i)
    ensures forall i | LastNamed(doc, kid, i) ::
              kid in Usable(doc) && Usable(doc)[kid] == PublicKey(doc[i].n.value, doc[i].e.value)
    decreases |doc|
  {
    if doc != [] {
      var n := |doc| - 1;
      var init := doc[..n];
      UsableMeans(init, kid);
      assert KeyIn(doc[n]).Some? <==> Signs(doc[n]);
      if doc[n].kid == kid && Signs(doc[n]) {
        assert LastNamed(doc, kid, n);
        forall i | LastNamed(doc, kid, i) ensures i == n {}
      } else {
        forall i | LastNamed(init, kid, i) ensures LastNamed(doc, kid, i) {
          assert forall j | 0 <= j < n :: init[j] == doc[j];
        }
        forall i | LastNamed(doc, kid, i) ensures LastNamed(init, kid, i) {
          assert forall j | 0 <= j < n :: init[j] == doc[j];
        }
      }
    }
  }

  /** A lookup finds a known key while its document is fresh, or while the throttle
      forbids asking; otherwise exactly the key of the document it then fetches. */
  lemma FoundExactlyWhen(c: Config, s: State, x: Call)
    requires ConfigOk(c)
    ensures
      var found := KeyFor(c, s, x.kid, x.now, x.response);
      if x.kid in s.keys && s.fetchedAt.At? && x.now - s.fetchedAt.time <= c.ttl then found == Some(s.keys[x.kid])
      else if s.lastFetch.At? && x.now - s.lastFetch.time < c.minRefresh then
        found == if x.kid in s.keys then Some(s.keys[x.kid]) else None
      else if x.response.Document? && x.kid in Usable(x.response.keys) then
        found == Some(Usable(x.response.keys)[x.kid])
      else found == None
  {
  }
}
