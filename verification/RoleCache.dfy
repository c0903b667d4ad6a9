/** The role resolver: bindings read from storage and kept for a while, in front of
    a store that keeps changing. Times are in nanoseconds. */
module RoleCache {
  import opened Text
  import opened Wrappers

  datatype Pair = Pair(tenant: string, subject: string)

  function CacheKey(p: Pair): string {
    p.tenant + "|" + p.subject
  }

  /** One row of the query: a role bound to the pair and one of its capabilities. */
  datatype Grant = Grant(role: string, capability: string)

  const ROLES := ["viewer", "agent", "supervisor", "admin"]

  const CAPABILITIES := [
    "interaction.read", "interaction.write", "case.read", "case.write", "workflow.run", "search.read", "admin.org"]

  datatype Binding = Binding(roles: seq<string>, capabilities: seq<string>)

  /** The known names among the members, in their canonical order. */
  function Ordered(known: seq<string>, members: set<string>): seq<string> {
    if known == [] then []
    else (if known[0] in members then [known[0]] else []) + Ordered(known[1..], members)
  }

  function RoleSet(rows: seq<Grant>): set<string> {
    set g | g in rows :: g.role
  }

  function CapabilitySet(rows: seq<Grant>): set<string> {
    set g | g in rows :: g.capability
  }

  /** The names the platform knows, in canonical order. */
  datatype Catalog = Catalog(roles: seq<string>, capabilities: seq<string>)

  function BindingOf(names: Catalog, rows: seq<Grant>): Binding {
    Binding(Ordered(names.roles, RoleSet(rows)), Ordered(names.capabilities, CapabilitySet(rows)))
  }

  datatype Entry = Entry(binding: Binding, resolved: int)

  type Cache = map<string, Entry>

  /** After defaults; `latency` bounds the time from a query's answer to its entry. */
  datatype Config = Config(ttl: int, maxEntries: nat, latency: nat, names: Catalog)

  predicate ConfigOk(c: Config) {
    c.ttl >= 1 && c.maxEntries >= 1
  }

  predicate Fresh(c: Config, e: Entry, now: int) {
    now - e.resolved <= c.ttl
  }

  /** Drop what expired; if that frees nothing, drop everything. */
  function Evicted(c: Config, cache: Cache, now: int): Cache {
    var kept := map k | k in cache && Fresh(c, cache[k], now) :: cache[k];
    if |kept| >= c.maxEntries then map[] else kept
  }

  function Stored(c: Config, cache: Cache, key: string, b: Binding, now: int): Cache {
    (if |cache| >= c.maxEntries then Evicted(c, cache, now) else cache)[key := Entry(b, now)]
  }

  class Resolver {
    const config: Config
    var cache: Cache

    constructor (ttl: int, maxEntries: int)
      ensures ConfigOk(config) && cache == map[]
      ensures config.ttl == if ttl <= 0 then 30_000_000_000 else ttl
      ensures config.maxEntries == if maxEntries <= 0 then 4096 else maxEntries
      ensures config.names == Catalog(ROLES, CAPABILITIES)
    {
      config := Config(if ttl <= 0 then 30_000_000_000 else ttl, if maxEntries <= 0 then 4096 else maxEntries, 0,
                       Catalog(ROLES, CAPABILITIES));
      cache := map[];
    }

    method EvictLocked(now: int)
      modifies this
      ensures cache == Evicted(config, old(cache), now)
    {
      var left := cache.Keys;
      while left != {}
        invariant left <= old(cache).Keys
        invariant forall k :: k in cache <==> k in old(cache) && (k in left || Fresh(config, old(cache)[k], now))
        invariant forall k | k in cache :: cache[k] == old(cache)[k]
        decreases |left|
      {
        var k :| k in left;
        if now - cache[k].resolved > config.ttl { cache := cache - {k}; }
        left := left - {k};
      }
      assert cache == map k | k in old(cache) && Fresh(config, old(cache)[k], now) :: old(cache)[k];
      if |cache| >= config.maxEntries { cache := map[]; }
    }

    method Collect(rows: seq<Grant>) returns (b: Binding)
      ensures b == BindingOf(config.names, rows)
    {
      var roles: set<string>, caps: set<string> := {}, {};
      for i := 0 to |rows|
        invariant roles == RoleSet(rows[..i]) && caps == CapabilitySet(rows[..i])
      {
        assert rows[..i + 1] == rows[..i] + [rows[i]];
        roles, caps := roles + {rows[i].role}, caps + {rows[i].capability};
      }
      assert rows[..|rows|] == rows;
      b := Binding(Ordered(config.names.roles, roles), Ordered(config.names.capabilities, caps));
    }

    /** One Resolve taken as a single instant; `rows` is the store's answer. */
    method Resolve(p: Pair, now: int, rows: Option<seq<Grant>>) returns (b: Option<Binding>)
      requires ConfigOk(config)
      modifies this
      ensures
        var k := CacheKey(p);
        if k in old(cache) && Fresh(config, old(cache)[k], now) then
          b == Some(old(cache)[k].binding) && cache == old(cache)
        else if rows.None? then b == None && cache == old(cache)
        else b == Some(BindingOf(config.names, rows.value))
             && cache == Stored(config, old(cache), k, BindingOf(config.names, rows.value), now)
    {
      var key := CacheKey(p);
      if key in cache && now - cache[key].resolved <= config.ttl {
        return Some(cache[key].binding);
      }
      if rows.None? { return None; }
      var binding := Collect(rows.value);
      if |cache| >= config.maxEntries { EvictLocked(now); }
      cache := cache[key := Entry(binding, now)];
      return Some(binding);
    }
  }

  // ---- many resolvers against a changing store ----

  /** What the store answers for each pair, from some instant on. */
  datatype Epoch = Epoch(since: int, truth: map<Pair, seq<Grant>>)

  function RowsFor(e: Epoch, p: Pair): seq<Grant> {
    if p in e.truth then e.truth[p] else []
  }

  predicate InForce(epochs: seq<Epoch>, i: int, at: int) {
    0 <= i < |epochs| && epochs[i].since <= at && (i + 1 < |epochs| ==> at <= epochs[i + 1].since)
  }

  /** b was what the store said about p at that instant. */
  ghost predicate TrueAt(names: Catalog, epochs: seq<Epoch>, p: Pair, b: Binding, at: int) {
    exists i :: InForce(epochs, i, at) && BindingOf(names, RowsFor(epochs[i], p)) == b
  }

  /** An answer of the store, on its way into the cache. */
  datatype Read = Read(pair: Pair, binding: Binding, at: int)

  /** What a caller that asked about a pair was told, when, and the read behind it. */
  datatype Told = Told(asked: Pair, read: Read, when: int)

  /** `sources` remembers for each cache entry the read it came from. */
  datatype State = State(
    clock: int,
    epochs: seq<Epoch>,
    cache: Cache,
    sources: map<string, Read>,
    asked: map<nat, Read>,
    told: seq<Told>)

  /** A call that misses reads the store and, up to `latency` later, stores and
      answers; any number of calls are at any point of this. */
  datatype Action =
    | Change(truth: map<Pair, seq<Grant>>, now: int)
    | Hit(pair: Pair, now: int)
    | Query(call: nat, pair: Pair, now: int)
    | Store(call: nat, now: int)
    | GiveUp(call: nat, now: int)

  function Init(start: int, truth: map<Pair, seq<Grant>>): State {
    State(start, [Epoch(start, truth)], map[], map[], map[], [])
  }

  predicate Enabled(c: Config, s: State, a: Action) {
    && a.now >= s.clock
    && match a
       case Hit(p, now) =>
         CacheKey(p) in s.cache && CacheKey(p) in s.sources && Fresh(c, s.cache[CacheKey(p)], now)
       case Query(call, p, _) => call !in s.asked && |s.epochs| > 0
       case Store(call, now) => call in s.asked && now - s.asked[call].at <= c.latency
       case GiveUp(call, _) => call in s.asked
       case _ => true
  }

  function Apply(c: Config, s: State, a: Action): State
    requires Enabled(c, s, a)
  {
    match a
    case Change(truth, now) => s.(clock := now, epochs := s.epochs + [Epoch(now, truth)])
    case Hit(p, now) =>
      var k := CacheKey(p);
      s.(clock := now, told := s.told + [Told(p, Read(s.sources[k].pair, s.cache[k].binding, s.sources[k].at), now)])
    case Query(call, p, now) =>
      s.(clock := now, asked := s.asked[call := Read(p, BindingOf(c.names, RowsFor(s.epochs[|s.epochs| - 1], p)), now)])
    case Store(call, now) =>
      var r := s.asked[call];
      var k := CacheKey(r.pair);
      s.(clock := now, cache := Stored(c, s.cache, k, r.binding, now), sources := s.sources[k := r],
         asked := s.asked - {call}, told := s.told + [Told(r.pair, r, now)])
    case GiveUp(call, now) => s.(clock := now, asked := s.asked - {call})
  }

  ghost predicate Reaches(c: Config, s: State, acts: seq<Action>, t: State)
    decreases |acts|
  {
    if acts == [] then s == t
    else Enabled(c, s, acts[0]) && Reaches(c, Apply(c, s, acts[0]), acts[1..], t)
  }

  // ---- which pairs share a cache key ----

  /** The first tenant ends where a bar and x continue the second's, and the
      subjects make up for it. */
  ghost predicate Overlaps(p: Pair, q: Pair, x: string) {
    q.tenant == p.tenant + "|" + x && p.subject == x + "|" + q.subject
  }

  /** Different pairs get one key if and only if one of their tenant ids goes on
      with a bar where the other ends. */
  lemma KeysCollideIff(p: Pair, q: Pair)
    ensures p != q && CacheKey(p) == CacheKey(q) <==> exists x :: Overlaps(p, q, x) || Overlaps(q, p, x)
  {
    if p != q && CacheKey(p) == CacheKey(q) {
      if |p.tenant| < |q.tenant| {
        OverlapOf(p, q);
      } else if |q.tenant| < |p.tenant| {
        OverlapOf(q, p);
      } else {
        SameLengthSame(p, q);
      }
    }
    forall x | Overlaps(p, q, x) ensures p != q && CacheKey(p) == CacheKey(q) { OverlapCollides(p, q, x); }
    forall x | Overlaps(q, p, x) ensures p != q && CacheKey(p) == CacheKey(q) { OverlapCollides(q, p, x); }
  }

  lemma OverlapOf(p: Pair, q: Pair)
    requires CacheKey(p) == CacheKey(q) && |p.tenant| < |q.tenant|
    ensures exists x :: Overlaps(p, q, x)
  {
    var k, n, m := CacheKey(p), |p.tenant|, |q.tenant|;
    var x := k[n + 1..m];
    assert k[..n] == p.tenant && k[n] == '|' && k[n + 1..] == p.subject;
    assert k[..m] == q.tenant && k[m] == '|' && k[m + 1..] == q.subject;
    assert k[..m] == k[..n] + "|" + x;
    assert k[n + 1..] == x + "|" + k[m + 1..];
    assert Overlaps(p, q, x);
  }

  lemma SameLengthSame(p: Pair, q: Pair)
    requires CacheKey(p) == CacheKey(q) && |p.tenant| == |q.tenant|
    ensures p == q
  {
    var k, n := CacheKey(p), |p.tenant|;
    assert k[..n] == p.tenant == q.tenant && k[n + 1..] == p.subject == q.subject;
  }

  lemma OverlapCollides(p: Pair, q: Pair, x: string)
    requires Overlaps(p, q, x)
    ensures p != q && CacheKey(p) == CacheKey(q)
  {
    assert |p.tenant| < |q.tenant|;
    assert p.tenant + "|" + (x + "|" + q.subject) == (p.tenant + "|" + x) + "|" + q.subject;
  }

  /** In particular tenant ids without a bar keep all pairs apart. */
  lemma KeyTells(p: Pair, q: Pair)
    requires '|' !in p.tenant && '|' !in q.tenant && CacheKey(p) == CacheKey(q)
    ensures p == q
  {
    FirstBarOf(p.tenant, p.subject);
    FirstBarOf(q.tenant, q.subject);
    SameLengthSame(p, q);
  }

  // ---- the invariant ----

  ghost predicate ReadOk(c: Config, s: State, r: Read) {
    r.at <= s.clock && TrueAt(c.names, s.epochs, r.pair, r.binding, r.at)
  }

  ghost predicate EntryOk(c: Config, s: State, k: string) {
    && k in s.cache && k in s.sources
    && ReadOk(c, s, s.sources[k]) && CacheKey(s.sources[k].pair) == k
    && s.cache[k].binding == s.sources[k].binding
    && s.cache[k].resolved - c.latency <= s.sources[k].at <= s.cache[k].resolved <= s.clock
  }

  ghost predicate ToldOk(c: Config, s: State, t: Told) {
    CacheKey(t.asked) == CacheKey(t.read.pair) && ReadOk(c, s, t.read) && t.when - c.ttl - c.latency <= t.read.at <= t.when
  }

  ghost predicate Inv(c: Config, s: State) {
    && ConfigOk(c)
    && |s.epochs| > 0 && s.epochs[|s.epochs| - 1].since <= s.clock
    && |s.cache| <= c.maxEntries
    && (forall k | k in s.cache :: EntryOk(c, s, k))
    && (forall i | i in s.asked :: ReadOk(c, s, s.asked[i]))
    && (forall t | t in s.told :: ToldOk(c, s, t))
  }

  ghost predicate Extends(s: State, t: State) {
    && s.epochs <= t.epochs && |t.epochs| <= |s.epochs| + 1
    && (|t.epochs| > |s.epochs| ==> t.epochs[|s.epochs|].since >= s.clock)
  }

  /** Time passing and the store changing leave what was true in the past alone. */
  lemma ReadStays(c: Config, s: State, t: State, r: Read)
    requires ReadOk(c, s, r) && s.clock <= t.clock
    requires Extends(s, t)
    ensures ReadOk(c, t, r)
  {
    var i :| InForce(s.epochs, i, r.at) && BindingOf(c.names, RowsFor(s.epochs[i], r.pair)) == r.binding;
    assert InForce(t.epochs, i, r.at);
  }

  lemma StoredSize(c: Config, cache: Cache, key: string, b: Binding, now: int)
    requires ConfigOk(c) && |cache| <= c.maxEntries
    ensures |Stored(c, cache, key, b, now)| <= c.maxEntries
    ensures forall k | k in Stored(c, cache, key, b, now) && k != key :: k in cache && Stored(c, cache, key, b, now)[k] == cache[k]
  {
  }

  lemma OldStays(c: Config, s: State, t: State)
    requires Inv(c, s) && s.clock <= t.clock && Extends(s, t)
    ensures forall x | x in s.told :: ToldOk(c, t, x)
    ensures forall i | i in s.asked :: ReadOk(c, t, s.asked[i])
    ensures forall k | k in s.cache && k in t.cache && t.cache[k] == s.cache[k]
                       && k in t.sources && t.sources[k] == s.sources[k] :: EntryOk(c, t, k)
  {
    forall x | x in s.told ensures ToldOk(c, t, x) {
      assert ToldOk(c, s, x);
      ReadStays(c, s, t, x.read);
    }
    forall i | i in s.asked ensures ReadOk(c, t, s.asked[i]) { ReadStays(c, s, t, s.asked[i]); }
    forall k | k in s.cache && k in t.cache && t.cache[k] == s.cache[k] && k in t.sources && t.sources[k] == s.sources[k]
      ensures EntryOk(c, t, k)
    {
      assert EntryOk(c, s, k);
      ReadStays(c, s, t, s.sources[k]);
    }
  }

  lemma ChangeKeepsInv(c: Config, s: State, truth: map<Pair, seq<Grant>>, now: int)
    requires Inv(c, s) && now >= s.clock
    ensures Inv(c, Apply(c, s, Change(truth, now)))
  {
    var t := Apply(c, s, Change(truth, now));
    OldStays(c, s, t);
    forall k | k in t.cache ensures EntryOk(c, t, k) { assert EntryOk(c, s, k); }
  }

  lemma GiveUpKeepsInv(c: Config, s: State, call: nat, now: int)
    requires Inv(c, s) && now >= s.clock && call in s.asked
    ensures Inv(c, Apply(c, s, GiveUp(call, now)))
  {
    var t := Apply(c, s, GiveUp(call, now));
    OldStays(c, s, t);
    forall k | k in t.cache ensures EntryOk(c, t, k) { assert EntryOk(c, s, k); }
  }

  lemma QueryKeepsInv(c: Config, s: State, call: nat, p: Pair, now: int)
    requires Inv(c, s) && Enabled(c, s, Query(call, p, now))
    ensures Inv(c, Apply(c, s, Query(call, p, now)))
  {
    var t := Apply(c, s, Query(call, p, now));
    OldStays(c, s, t);
    forall k | k in t.cache ensures EntryOk(c, t, k) { assert EntryOk(c, s, k); }
    assert InForce(t.epochs, |t.epochs| - 1, now);
    assert ReadOk(c, t, t.asked[call]);
  }

  lemma HitKeepsInv(c: Config, s: State, p: Pair, now: int)
    requires Inv(c, s) && Enabled(c, s, Hit(p, now))
    ensures Inv(c, Apply(c, s, Hit(p, now)))
  {
    var t := Apply(c, s, Hit(p, now));
    var k := CacheKey(p);
    OldStays(c, s, t);
    forall x | x in t.cache ensures EntryOk(c, t, x) { assert EntryOk(c, s, x); }
    assert EntryOk(c, t, k);
    assert ToldOk(c, t, Told(p, Read(s.sources[k].pair, s.cache[k].binding, s.sources[k].at), now));
  }

  /** The state after a read is stored; nothing is dropped that should stay. */
  lemma StoreParts(c: Config, s: State, call: nat, now: int, t: State)
    requires Inv(c, s) && Enabled(c, s, Store(call, now)) && t == Apply(c, s, Store(call, now))
    ensures |t.cache| <= c.maxEntries && CacheKey(s.asked[call].pair) in t.cache
    ensures forall k | k in t.cache && k != CacheKey(s.asked[call].pair) ::
              k in s.cache && t.cache[k] == s.cache[k] && k in s.sources && k in t.sources && t.sources[k] == s.sources[k]
    ensures t.epochs == s.epochs && s.clock <= t.clock == now && t.told == s.told + [Told(s.asked[call].pair, s.asked[call], now)]
    ensures t.asked == s.asked - {call}
  {
    var r := s.asked[call];
    StoredSize(c, s.cache, CacheKey(r.pair), r.binding, now);
    forall k | k in s.cache ensures k in s.sources { assert EntryOk(c, s, k); }
  }

  lemma StoreKeepsInv(c: Config, s: State, call: nat, now: int)
    requires Inv(c, s) && Enabled(c, s, Store(call, now))
    ensures Inv(c, Apply(c, s, Store(call, now)))
  {
    var t := Apply(c, s, Store(call, now));
    StoreParts(c, s, call, now, t);
    NewEntryOk(c, s, call, now);
    KeptInv(c, s, s.asked[call], call, t);
  }

  lemma KeptInv(c: Config, s: State, r: Read, call: nat, t: State)
    requires Inv(c, s) && |t.cache| <= c.maxEntries && t.epochs == s.epochs && s.clock <= t.clock
    requires t.asked == s.asked - {call} && t.told == s.told + [Told(r.pair, r, t.clock)]
    requires forall k | k in t.cache && k != CacheKey(r.pair) ::
               k in s.cache && t.cache[k] == s.cache[k] && k in s.sources && k in t.sources && t.sources[k] == s.sources[k]
    requires EntryOk(c, t, CacheKey(r.pair)) && ToldOk(c, t, Told(r.pair, r, t.clock))
    ensures Inv(c, t)
  {
    OldStays(c, s, t);
  }

  lemma NewEntryOk(c: Config, s: State, call: nat, now: int)
    requires Inv(c, s) && Enabled(c, s, Store(call, now))
    ensures EntryOk(c, Apply(c, s, Store(call, now)), CacheKey(s.asked[call].pair))
    ensures ToldOk(c, Apply(c, s, Store(call, now)), Told(s.asked[call].pair, s.asked[call], now))
  {
    var r := s.asked[call];
    assert ReadOk(c, s, r);
    ReadStays(c, s, Apply(c, s, Store(call, now)), r);
  }

  lemma StepKeepsInv(c: Config, s: State, a: Action)
    requires Inv(c, s) && Enabled(c, s, a)
    ensures Inv(c, Apply(c, s, a))
  {
    match a {
      case Change(truth, now) => ChangeKeepsInv(c, s, truth, now);
      case GiveUp(call, now) => GiveUpKeepsInv(c, s, call, now);
      case Query(call, p, now) => QueryKeepsInv(c, s, call, p, now);
      case Hit(p, now) => HitKeepsInv(c, s, p, now);
      case Store(call, now) => StoreKeepsInv(c, s, call, now);
    }
  }

  lemma {:induction false} RunKeepsInv(c: Config, s: State, acts: seq<Action>, t: State)
    requires Inv(c, s) && Reaches(c, s, acts, t)
    ensures Inv(c, t)
    decreases |acts|
  {
    if acts != [] {
      StepKeepsInv(c, s, acts[0]);
      RunKeepsInv(c, Apply(c, s, acts[0]), acts[1..], t);
    }
  }

  ghost predicate RecentTruth(c: Config, t: State, x: Told, q: Pair) {
    exists at :: x.when - c.ttl - c.latency <= at <= x.when && TrueAt(c.names, t.epochs, q, x.read.binding, at)
  }

  /** Whatever a resolver says about a pair, the store said at some instant no
      longer ago than the ttl plus the latency of one query - with an atomic
      Resolve, the ttl: of the pair asked about itself, unless that pair overlaps
      another one. The cache never holds more than maxEntries. */
  lemma AnswersAreRecent(c: Config, start: int, truth: map<Pair, seq<Grant>>, acts: seq<Action>, t: State, i: nat)
    requires ConfigOk(c) && Reaches(c, Init(start, truth), acts, t)
    ensures |t.cache| <= c.maxEntries
    ensures i < |t.told| ==>
              exists q :: RecentTruth(c, t, t.told[i], q) &&
                (q == t.told[i].asked || exists x :: Overlaps(t.told[i].asked, q, x) || Overlaps(q, t.told[i].asked, x))
  {
    RunKeepsInv(c, Init(start, truth), acts, t);
    if i < |t.told| {
      var x := t.told[i];
      assert ToldOk(c, t, x);
      assert TrueAt(c.names, t.epochs, x.read.pair, x.read.binding, x.read.at);
      assert RecentTruth(c, t, x, x.read.pair);
      KeysCollideIff(x.asked, x.read.pair);
    }
  }

  lemma FillAtZero(c: Config, p: Pair, rows: seq<Grant>)
    requires ConfigOk(c)
    ensures
      var s := Init(0, map[p := rows]);
      var r := Read(p, BindingOf(c.names, rows), 0);
      Reaches(c, s, [Query(0, p, 0), Store(0, 0)],
              State(0, s.epochs, map[CacheKey(p) := Entry(r.binding, 0)], map[CacheKey(p) := r], map[], [Told(p, r, 0)]))
  {
    var acts := [Query(0, p, 0), Store(0, 0)];
    assert acts[1..] == [Store(0, 0)] && acts[1..][1..] == [];
    var s := Init(0, map[p := rows]);
    var s1 := Apply(c, s, Query(0, p, 0));
    assert s1.asked == map[0 := Read(p, BindingOf(c.names, rows), 0)];
    assert s1.asked - {0} == map[];
  }

  /** The rows of a subject holding the first known role. */
  function FirstRole(names: Catalog): seq<Grant>
    requires names.roles != []
  {
    [Grant(names.roles[0], "")]
  }

  /** The bound is reached: a binding taken away right after it was read is still
      answered a full ttl later, when the store no longer says so. */
  lemma RevokedLingers(c: Config, p: Pair)
    requires ConfigOk(c) && c.names.roles != []
    ensures
      var rows := FirstRole(c.names);
      var r := Read(p, BindingOf(c.names, rows), 0);
      var filled := State(0, [Epoch(0, map[p := rows])], map[CacheKey(p) := Entry(r.binding, 0)],
                          map[CacheKey(p) := r], map[], [Told(p, r, 0)]);
      && Reaches(c, Init(0, map[p := rows]), [Query(0, p, 0), Store(0, 0)], filled)
      && Enabled(c, filled, Change(map[], 0))
      && Enabled(c, Apply(c, filled, Change(map[], 0)), Hit(p, c.ttl))
      && var t := Apply(c, Apply(c, filled, Change(map[], 0)), Hit(p, c.ttl));
         t.told == [Told(p, r, 0), Told(p, r, c.ttl)] && !TrueAt(c.names, t.epochs, p, r.binding, c.ttl)
  {
    var rows := FirstRole(c.names);
    FillAtZero(c, p, rows);
    GoneLater(c, p, c.ttl);
    assert [Epoch(0, map[p := rows])] + [Epoch(0, map[])] == [Epoch(0, map[p := rows]), Epoch(0, map[])];
    var r := Read(p, BindingOf(c.names, rows), 0);
    assert [Told(p, r, 0)] + [Told(p, r, c.ttl)] == [Told(p, r, 0), Told(p, r, c.ttl)];
  }

  lemma GoneLater(c: Config, p: Pair, at: int)
    requires c.names.roles != [] && at > 0
    ensures !TrueAt(c.names, [Epoch(0, map[p := FirstRole(c.names)]), Epoch(0, map[])], p,
                    BindingOf(c.names, FirstRole(c.names)), at)
  {
    var rows := FirstRole(c.names);
    var epochs := [Epoch(0, map[p := rows]), Epoch(0, map[])];
    assert rows[0].role in RoleSet(rows);
    assert BindingOf(c.names, rows).roles[0] == c.names.roles[0];
    NothingBound(c.names.roles);
    assert RoleSet([]) == {};
    forall i | InForce(epochs, i, at) ensures BindingOf(c.names, RowsFor(epochs[i], p)) != BindingOf(c.names, rows) {
      assert i == 1;
    }
  }

  lemma {:induction false} NothingBound(known: seq<string>)
    ensures Ordered(known, {}) == []
  {
    if known != [] { NothingBound(known[1..]); }
  }

  // ---- what a binding says, and what the cache forgets ----

  ghost predicate Canonical(known: seq<string>, names: seq<string>, at: seq<nat>) {
    && |at| == |names|
    && (forall i | 0 <= i < |at| :: at[i] < |known| && names[i] == known[at[i]])
    && (forall i, j | 0 <= i < j < |at| :: at[i] < at[j])
  }

  function Later(at: seq<nat>): (r: seq<nat>)
    ensures |r| == |at| && forall i | 0 <= i < |at| :: r[i] == at[i] + 1
  {
    seq(|at|, i requires 0 <= i < |at| => at[i] + 1)
  }

  lemma {:induction false} OrderedMeans(known: seq<string>, members: set<string>) returns (at: seq<nat>)
    ensures forall x :: x in Ordered(known, members) <==> x in known && x in members
    ensures Canonical(known, Ordered(known, members), at)
  {
    at := [];
    if known != [] {
      var rest := OrderedMeans(known[1..], members);
      at := (if known[0] in members then [0] else []) + Later(rest);
      assert known == [known[0]] + known[1..];
    }
  }

  /** A binding shows a role if and only if the platform knows it and some row grants
      it, a capability likewise, both in the platform's order. */
  lemma BindingMeans(names: Catalog, rows: seq<Grant>) returns (roles: seq<nat>, capabilities: seq<nat>)
    ensures forall x :: x in BindingOf(names, rows).roles <==>
                        x in names.roles && exists g :: g in rows && g.role == x
    ensures forall x :: x in BindingOf(names, rows).capabilities <==>
                        x in names.capabilities && exists g :: g in rows && g.capability == x
    ensures Canonical(names.roles, BindingOf(names, rows).roles, roles)
    ensures Canonical(names.capabilities, BindingOf(names, rows).capabilities, capabilities)
  {
    roles := OrderedMeans(names.roles, RoleSet(rows));
    capabilities := OrderedMeans(names.capabilities, CapabilitySet(rows));
  }

  /** The keys a store leaves out besides its own. */
  function Forgotten(c: Config, cache: Cache, key: string, b: Binding, now: int): set<string> {
    cache.Keys - Stored(c, cache, key, b, now).Keys - {key}
  }

  function Expired(c: Config, cache: Cache, now: int): set<string> {
    set k | k in cache && now - cache[k].resolved > c.ttl
  }

  /** A cache with room forgets nothing; a full one exactly the expired entries, or,
      if the others alone would fill it, all of them. */
  lemma ForgetsOnlyWhenFull(c: Config, cache: Cache, key: string, b: Binding, now: int)
    requires ConfigOk(c)
    ensures
      var expired := Expired(c, cache, now);
      Forgotten(c, cache, key, b, now) + {key} ==
      if |cache| < c.maxEntries then {key}
      else if |cache| - |expired| < c.maxEntries then expired + {key}
      else cache.Keys + {key}
    ensures key in Stored(c, cache, key, b, now) && Stored(c, cache, key, b, now)[key] == Entry(b, now)
  {
    if |cache| >= c.maxEntries {
      var expired := Expired(c, cache, now);
      var kept := map k | k in cache && Fresh(c, cache[k], now) :: cache[k];
      assert kept.Keys == cache.Keys - expired;
      assert |cache.Keys| == |cache| && |kept.Keys| == |kept|;
      assert (cache.Keys - expired) + expired == cache.Keys;
      assert |cache.Keys - expired| == |cache.Keys| - |expired|;
    }
  }
}
