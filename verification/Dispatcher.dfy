/** The dispatcher as the worker drives it: one Tick claims a batch, hands each
    row to the bus and acknowledges or releases the batch. Every Tick is proved
    to be a run of the outbox's step system. */
module Dispatcher {
  import opened Facts
  import opened Outbox
  import opened OutboxSafety

  ghost predicate CanReach(c: Config, s: State, t: State) {
    exists acts :: Reaches(c, s, acts, t)
  }

  lemma CanReachStep(c: Config, s: State, t: State, a: Action, u: State)
    requires CanReach(c, s, t) && Enabled(c, t, a)
    requires var v := Apply(c, t, a);
             v.rows == u.rows && v.workers == u.workers && v.bus == u.bus && v.claims == u.claims
    ensures CanReach(c, s, u)
  {
    var acts :| Reaches(c, s, acts, t);
    ReachesMore(c, s, acts, t, a);
  }

  lemma CanReachTrans(c: Config, s: State, t: State, u: State)
    requires CanReach(c, s, t) && CanReach(c, t, u)
    ensures CanReach(c, s, u)
  {
    var a :| Reaches(c, s, a, t);
    var b :| Reaches(c, t, b, u);
    ReachesConcat(c, s, a, t, b, u);
  }

  lemma CanReachSelf(c: Config, s: State)
    ensures CanReach(c, s, s)
  {
    assert Reaches(c, s, [], s);
  }

  /** What the bus receives from a batch published up to, not including, row n. */
  function Handed(rows: Table, ids: seq<string>, n: nat): seq<Envelope>
    requires n <= |ids| && forall id | id in ids :: id in rows
  {
    if n == 0 then [] else Handed(rows, ids, n - 1) + Delivered(rows[ids[n - 1]].payload)
  }

  /** The bus is asked to take row i and does not. */
  predicate Refused(rows: Table, ids: seq<string>, busOk: seq<bool>, i: int)
    requires 0 <= i < |ids| == |busOk| && forall id | id in ids :: id in rows
  {
    rows[ids[i]].payload.Some? && !busOk[i]
  }

  /** n is the first row refused, or the end of the batch. */
  ghost predicate FirstRefusal(rows: Table, ids: seq<string>, busOk: seq<bool>, n: nat)
    requires n <= |ids| == |busOk| && forall id | id in ids :: id in rows
  {
    && (forall i | 0 <= i < n :: !Refused(rows, ids, busOk, i))
    && (n < |ids| ==> Refused(rows, ids, busOk, n))
  }

  function PublishedTo(s: State, token: string, ids: seq<string>, n: nat): State
    requires n <= |ids| && forall id | id in ids :: id in s.rows
  {
    s.(workers := [Leased(token, ids, n)], bus := s.bus + Handed(s.rows, ids, n))
  }

  /** Publishing row by row is a run of the system. */
  lemma {:induction false} PublishRuns(c: Config, s: State, token: string, ids: seq<string>, n: nat)
    requires s.workers == [Leased(token, ids, 0)] && n <= |ids| && forall id | id in ids :: id in s.rows
    ensures CanReach(c, s, PublishedTo(s, token, ids, n))
  {
    if n == 0 {
      assert s.bus + [] == s.bus;
      CanReachSelf(c, s);
    } else {
      PublishRuns(c, s, token, ids, n - 1);
      CanReachStep(c, s, PublishedTo(s, token, ids, n - 1), Action.Publish(0), PublishedTo(s, token, ids, n));
    }
  }

  lemma PublishFails(c: Config, s: State, token: string, ids: seq<string>, n: nat)
    requires s.workers == [Leased(token, ids, 0)] && n < |ids| && forall id | id in ids :: id in s.rows
    requires s.rows[ids[n]].payload.Some?
    ensures CanReach(c, s, PublishedTo(s, token, ids, n).(workers := [Failing(token)]))
  {
    PublishRuns(c, s, token, ids, n);
    CanReachStep(c, s, PublishedTo(s, token, ids, n), PublishError(0, false),
                 PublishedTo(s, token, ids, n).(workers := [Failing(token)]));
  }

  class Worker {
    const config: Config
    var rows: Table
    var bus: seq<Envelope>
    ghost var claims: map<string, seq<string>>

    ghost function At(w: Outbox.Worker): State
      reads this
    {
      State(rows, [w], bus, claims)
    }

    constructor (c: Config)
      ensures config == c && rows == map[] && bus == [] && claims == map[]
    {
      config := c;
      rows, bus, claims := map[], [], map[];
    }

    /** The publish callback: rows that do not decode are skipped, the first bus
        error ends the batch. `busOk` is the bus's answer per row. */
    method Publish(token: string, ids: seq<string>, busOk: seq<bool>) returns (err: bool, sent: nat)
      requires |busOk| == |ids| && forall id | id in ids :: id in rows
      modifies this`bus
      ensures sent <= |ids| && bus == old(bus) + Handed(rows, ids, sent)
      ensures FirstRefusal(rows, ids, busOk, sent)
      ensures err <==> sent < |ids|
      ensures CanReach(config, old(At(Leased(token, ids, 0))),
                       At(if err then Failing(token) else Leased(token, ids, |ids|)))
    {
      ghost var start := At(Leased(token, ids, 0));
      sent := 0;
      for i := 0 to |ids|
        invariant sent == i && bus == old(bus) + Handed(rows, ids, i)
        invariant forall j | 0 <= j < i :: !Refused(rows, ids, busOk, j)
      {
        var payload := rows[ids[i]].payload;
        if payload.Some? {
          if !busOk[i] {
            PublishFails(config, start, token, ids, i);
            return true, i;
          }
          bus := bus + [payload.value];
        }
        sent := i + 1;
      }
      PublishRuns(config, start, token, ids, |ids|);
      err := false;
    }

    /** Claims a batch and publishes it. `ids` is what the claim statement
        selected at `now`, `token` a token no claim ever used. */
    method Tick(now: int, token: string, ids: seq<string>, busOk: seq<bool>) returns (ok: bool, sent: nat)
      requires |busOk| == |ids| <= config.batchSize && token != "" && token !in claims
      requires forall id | id in ids :: id in rows && Claimable(rows[id], now)
      modifies this
      ensures rows == if ids == [] then old(rows)
                      else if ok then AckRows(ClaimRows(old(rows), ids, token), token)
                      else ReleaseRows(ClaimRows(old(rows), ids, token), token, config.maxAttempts, now)
      ensures sent <= |ids| && FirstRefusal(old(rows), ids, busOk, sent) && (ok <==> sent == |ids|)
      ensures bus == old(bus) + Handed(old(rows), ids, sent)
      ensures CanReach(config, old(At(Idle)), At(Idle))
    {
      ghost var start := At(Idle);
      CanReachSelf(config, start);
      rows := ClaimRows(rows, ids, token);
      claims := claims[token := ids];
      ghost var leased := At(if ids == [] then Idle else Leased(token, ids, 0));
      CanReachStep(config, start, start, Claim(0, token, ids), leased);
      if |ids| == 0 {
        assert rows == old(rows);
        return true, 0;
      }
      var err;
      err, sent := Publish(token, ids, busOk);
      SamePayloads(old(rows), ids, token, sent);
      SameRefusals(old(rows), ids, token, busOk, sent);
      CanReachTrans(config, start, leased, At(if err then Failing(token) else Leased(token, ids, |ids|)));
      Settle(err, token, ids, now, start);
      return !err, sent;
    }

    /** Releases the batch after a bus error, acknowledges it otherwise. */
    method Settle(err: bool, token: string, ids: seq<string>, now: int, ghost start: State)
      requires CanReach(config, start, At(if err then Failing(token) else Leased(token, ids, |ids|)))
      modifies this`rows
      ensures rows == if err then ReleaseRows(old(rows), token, config.maxAttempts, now) else AckRows(old(rows), token)
      ensures CanReach(config, start, At(Idle))
    {
      ghost var published := At(if err then Failing(token) else Leased(token, ids, |ids|));
      if err {
        rows := ReleaseRows(rows, token, config.maxAttempts, now);
        CanReachStep(config, start, published, Release(0, now), At(Idle));
      } else {
        rows := AckRows(rows, token);
        CanReachStep(config, start, published, Ack(0), At(Idle));
      }
    }
  }

  lemma SameRefusals(rows: Table, ids: seq<string>, token: string, busOk: seq<bool>, n: nat)
    requires n <= |ids| == |busOk| && forall id | id in ids :: id in rows
    ensures FirstRefusal(ClaimRows(rows, ids, token), ids, busOk, n) <==> FirstRefusal(rows, ids, busOk, n)
  {
    forall i | 0 <= i < |ids|
      ensures Refused(ClaimRows(rows, ids, token), ids, busOk, i) <==> Refused(rows, ids, busOk, i)
    {
      assert ids[i] in ids;
    }
  }

  lemma {:induction false} SamePayloads(rows: Table, ids: seq<string>, token: string, n: nat)
    requires n <= |ids| && forall id | id in ids :: id in rows
    ensures Handed(ClaimRows(rows, ids, token), ids, n) == Handed(rows, ids, n)
  {
    if n > 0 { SamePayloads(rows, ids, token, n - 1); }
  }

  lemma {:induction false} ReachesConcat(c: Config, s: State, a: seq<Action>, t: State, b: seq<Action>, u: State)
    requires Reaches(c, s, a, t) && Reaches(c, t, b, u)
    ensures Reaches(c, s, a + b, u)
    decreases |a|
  {
    if a == [] {
      assert a + b == b;
    } else {
      assert (a + b)[0] == a[0] && (a + b)[1..] == a[1..] + b;
      ReachesConcat(c, Apply(c, s, a[0]), a[1..], t, b, u);
    }
  }

  /** What one Tick means for a row of its batch, when no other dispatcher is at
      work: published on success; otherwise back to pending, or parked once the
      attempt just made was the last one allowed. */
  lemma TickOutcome(rows: Table, ids: seq<string>, token: string, maxAttempts: nat, now: int, id: string)
    requires token != "" && id in rows && forall x | x in rows :: rows[x].token != token
    ensures
      var acked := AckRows(ClaimRows(rows, ids, token), token)[id];
      var released := ReleaseRows(ClaimRows(rows, ids, token), token, maxAttempts, now)[id];
      if id in ids then
        && acked.status.Published? && released.attempts == rows[id].attempts + 1
        && (released.status.Failed? <==> rows[id].attempts + 1 >= maxAttempts)
        && (released.status.Pending? <==> rows[id].attempts + 1 < maxAttempts)
        && acked.token == released.token == ""
      else acked == rows[id] && released == rows[id]
  {
  }
}
