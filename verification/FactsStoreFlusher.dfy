/** The flusher's own code: drain, sendAll, requeue, flushStash and shutdown as
    they run while the producers are quiet (as they are once Close has waited
    for them). Every method is proved to be a run of the store's step system. */
module FactsStoreFlusher {
  import opened Facts
  import opened FactsStoreProtocol
  import opened FactsStoreSafety

  ghost predicate CanReach(s: State, t: State) {
    exists acts :: Reaches(s, acts, t)
  }

  lemma CanReachTrans(s: State, t: State, u: State)
    requires CanReach(s, t) && CanReach(t, u)
    ensures CanReach(s, u)
  {
    var a :| Reaches(s, a, t);
    var b :| Reaches(t, b, u);
    ReachesConcat(s, a, t, b, u);
  }

  lemma CanReachStep(s: State, t: State, f: FlusherStep)
    requires CanReach(s, t) && FlusherEnabled(t, f)
    ensures CanReach(s, Flush(t, f))
  {
    ReachesOne(t, Flushing(f));
    CanReachTrans(s, t, Flush(t, f));
  }

  /** What a buffer of the given capacity retains of q when it sheds the oldest. */
  function KeepNewest(q: seq<Row>, cap: nat): seq<Row> {
    if |q| <= cap then q else q[|q| - cap..]
  }

  function Overflow(q: seq<Row>, cap: nat): nat {
    if |q| <= cap then 0 else |q| - cap
  }

  /** The rows a buffer sheds to get there: the oldest ones. */
  function ShedOf(q: seq<Row>, cap: nat): seq<Row> {
    q[..Overflow(q, cap)]
  }

  /** Requeueing loses the front of the line and nothing else: what is shed and what
      is kept are the old rows in order, and no room is left unused. */
  lemma ShedThenKept(q: seq<Row>, cap: nat)
    ensures ShedOf(q, cap) + KeepNewest(q, cap) == q
    ensures |KeepNewest(q, cap)| == if |q| < cap then |q| else cap
  {
  }

  /** The history after a requeue shed these rows, all of them buffer heads. */
  function ShedLog(log: History, rows: seq<Row>): History {
    log.(shed := log.shed + rows, headSheds := log.headSheds + |rows|)
  }

  lemma ShedLogTwice(log: History, a: seq<Row>, b: seq<Row>)
    ensures ShedLog(ShedLog(log, a), b) == ShedLog(log, a + b)
    ensures ShedLog(log, []) == log
  {
    assert log.shed + a + b == log.shed + (a + b);
    assert log.shed + [] == log.shed;
  }

  lemma KeepNewestAppend(q: seq<Row>, r: Row, cap: nat)
    requires cap >= 1
    ensures KeepNewest(KeepNewest(q, cap) + [r], cap) == KeepNewest(q + [r], cap)
    ensures ShedOf(q + [r], cap) == ShedOf(q, cap) + ShedOf(KeepNewest(q, cap) + [r], cap)
  {
  }

  /** The requeue loop with `todo` still to offer. */
  function Pending(todo: seq<Row>): Flusher {
    if todo == [] then Selecting else Requeuing(todo)
  }

  lemma KeepNewestNext(q: seq<Row>, rows: seq<Row>, i: nat, cap: nat)
    requires cap >= 1 && i < |rows|
    ensures KeepNewest(KeepNewest(q + rows[..i], cap) + [rows[i]], cap) == KeepNewest(q + rows[..i + 1], cap)
    ensures ShedOf(q + rows[..i + 1], cap) ==
            ShedOf(q + rows[..i], cap) + ShedOf(KeepNewest(q + rows[..i], cap) + [rows[i]], cap)
  {
    assert q + rows[..i + 1] == (q + rows[..i]) + [rows[i]];
    KeepNewestAppend(q + rows[..i], rows[i], cap);
  }

  class Store {
    const maxRows: nat
    var interCh: seq<Row>
    var usageCh: seq<Row>
    var dialed: bool
    var finalErr: bool
    ghost var calls: seq<Call>
    ghost var closer: Closer
    ghost var log: History

    ghost predicate Valid()
      reads this
    {
      maxRows >= 1 && |interCh| <= maxRows && |usageCh| <= maxRows
    }

    /** The store as the step system sees it, with the flusher at f. */
    ghost function At(f: Flusher, stash: Rows): State
      reads this
    {
      State(maxRows, calls, Rows(interCh, usageCh), stash, f, dialed, finalErr, closer, log)
    }

    constructor (cap: nat)
      requires cap >= 1
      ensures Valid() && maxRows == cap && At(Selecting, NONE) == Init(cap)
    {
      maxRows := cap;
      interCh, usageCh := [], [];
      dialed, finalErr := false, false;
      calls, closer := [], NotCalled;
      log := History([], [], [], 0, 0);
    }

    /** Empties both buffers into the stash; the select picks freely between
        two ready buffers. */
    method Drain(stash: Rows, ghost final: bool) returns (drained: Rows)
      requires Valid()
      modifies this`interCh, this`usageCh
      ensures Valid() && interCh == [] && usageCh == []
      ensures drained == Rows(stash.inter + old(interCh), stash.usage + old(usageCh))
      ensures CanReach(old(At(Draining(final), stash)), At(Draining(final), drained))
    {
      drained := stash;
      ghost var start := At(Draining(final), stash);
      assert Reaches(start, [], start);
      while
        invariant Valid()
        invariant drained.inter + interCh == stash.inter + old(interCh)
        invariant drained.usage + usageCh == stash.usage + old(usageCh)
        invariant CanReach(start, At(Draining(final), drained))
        decreases |interCh| + |usageCh|
      {
        case interCh != [] =>
          CanReachStep(start, At(Draining(final), drained), Take(Interactions));
          drained := drained.(inter := drained.inter + [interCh[0]]);
          interCh := interCh[1..];
        case usageCh != [] =>
          CanReachStep(start, At(Draining(final), drained), Take(Usage));
          drained := drained.(usage := drained.usage + [usageCh[0]]);
          usageCh := usageCh[1..];
      }
    }

    /** Offers one row back to its buffer, shedding the oldest waiting row when
        the buffer is full. */
    method OfferInteraction(r: Row, ghost todo: seq<Row>) returns (ok: bool)
      requires Valid() && r.InteractionRow? && todo != [] && todo[0] == r
      modifies this`interCh, this`log
      ensures Valid() && ok
      ensures interCh == KeepNewest(old(interCh) + [r], maxRows)
      ensures log == ShedLog(old(log), ShedOf(old(interCh) + [r], maxRows))
      ensures CanReach(old(At(Requeuing(todo), NONE)), At(NextOffer(todo), NONE))
    {
      ghost var start := At(Requeuing(todo), NONE);
      assert Reaches(start, [], start);
      CanReachStep(start, start, Offer);
      ShedLogTwice(log, [], []);
      if |interCh| < maxRows {
        interCh := interCh + [r];
        return true;
      }
      assert ShedOf(interCh + [r], maxRows) == [interCh[0]];
      CanReachStep(start, At(Shedding(todo), NONE), ShedHead);
      log := log.(shed := log.shed + [interCh[0]], headSheds := log.headSheds + 1);
      interCh := interCh[1..];
      CanReachStep(start, At(Retrying(todo), NONE), Reoffer);
      if |interCh| < maxRows {
        interCh := interCh + [r];
        return true;
      }
      return false;
    }

    method OfferUsage(r: Row, ghost todo: seq<Row>) returns (ok: bool)
      requires Valid() && r.UsageRow? && todo != [] && todo[0] == r
      modifies this`usageCh, this`log
      ensures Valid() && ok
      ensures usageCh == KeepNewest(old(usageCh) + [r], maxRows)
      ensures log == ShedLog(old(log), ShedOf(old(usageCh) + [r], maxRows))
      ensures CanReach(old(At(Requeuing(todo), NONE)), At(NextOffer(todo), NONE))
    {
      ghost var start := At(Requeuing(todo), NONE);
      assert Reaches(start, [], start);
      CanReachStep(start, start, Offer);
      ShedLogTwice(log, [], []);
      if |usageCh| < maxRows {
        usageCh := usageCh + [r];
        return true;
      }
      assert ShedOf(usageCh + [r], maxRows) == [usageCh[0]];
      CanReachStep(start, At(Shedding(todo), NONE), ShedHead);
      log := log.(shed := log.shed + [usageCh[0]], headSheds := log.headSheds + 1);
      usageCh := usageCh[1..];
      CanReachStep(start, At(Retrying(todo), NONE), Reoffer);
      if |usageCh| < maxRows {
        usageCh := usageCh + [r];
        return true;
      }
      return false;
    }

    /** The first loop of Requeue; `rest` is what its second loop will offer. */
    method RequeueInteractions(inter: seq<Row>, ghost rest: seq<Row>) returns (dropped: int)
      requires Valid() && forall r | r in inter :: r.InteractionRow?
      modifies this`interCh, this`log
      ensures Valid() && dropped == 0
      ensures interCh == KeepNewest(old(interCh) + inter, maxRows)
      ensures log == ShedLog(old(log), ShedOf(old(interCh) + inter, maxRows))
      ensures CanReach(old(At(Pending(inter + rest), NONE)), At(Pending(rest), NONE))
    {
      ghost var start := At(Pending(inter + rest), NONE);
      ShedLogTwice(log, [], []);
      assert Reaches(start, [], start);
      dropped := 0;
      assert interCh + inter[..0] == interCh && inter[0..] + rest == inter + rest;
      for i := 0 to |inter|
        invariant Valid() && dropped == 0
        invariant interCh == KeepNewest(old(interCh) + inter[..i], maxRows)
        invariant log == ShedLog(old(log), ShedOf(old(interCh) + inter[..i], maxRows))
        invariant CanReach(start, At(Pending(inter[i..] + rest), NONE))
      {
        ghost var todo := inter[i..] + rest;
        ghost var before := At(Requeuing(todo), NONE);
        KeepNewestNext(old(interCh), inter, i, maxRows);
        ShedLogTwice(old(log), ShedOf(old(interCh) + inter[..i], maxRows), ShedOf(interCh + [inter[i]], maxRows));
        assert todo[1..] == inter[i + 1..] + rest;
        var ok := OfferInteraction(inter[i], todo);
        CanReachTrans(start, before, At(NextOffer(todo), NONE));
        if !ok { dropped := dropped + 1; }
      }
      assert inter[..|inter|] == inter && inter[|inter|..] + rest == rest;
    }

    method RequeueUsage(usage: seq<Row>) returns (dropped: int)
      requires Valid() && forall r | r in usage :: r.UsageRow?
      modifies this`usageCh, this`log
      ensures Valid() && dropped == 0
      ensures usageCh == KeepNewest(old(usageCh) + usage, maxRows)
      ensures log == ShedLog(old(log), ShedOf(old(usageCh) + usage, maxRows))
      ensures CanReach(old(At(Pending(usage), NONE)), At(Selecting, NONE))
    {
      ghost var start := At(Pending(usage), NONE);
      ShedLogTwice(log, [], []);
      assert Reaches(start, [], start);
      dropped := 0;
      assert usageCh + usage[..0] == usageCh && usage[0..] == usage;
      for i := 0 to |usage|
        invariant Valid() && dropped == 0
        invariant usageCh == KeepNewest(old(usageCh) + usage[..i], maxRows)
        invariant log == ShedLog(old(log), ShedOf(old(usageCh) + usage[..i], maxRows))
        invariant CanReach(start, At(Pending(usage[i..]), NONE))
      {
        ghost var todo := usage[i..];
        ghost var before := At(Requeuing(todo), NONE);
        KeepNewestNext(old(usageCh), usage, i, maxRows);
        ShedLogTwice(old(log), ShedOf(old(usageCh) + usage[..i], maxRows), ShedOf(usageCh + [usage[i]], maxRows));
        assert todo[1..] == usage[i + 1..];
        var ok := OfferUsage(usage[i], todo);
        CanReachTrans(start, before, At(NextOffer(todo), NONE));
        if !ok { dropped := dropped + 1; }
      }
      assert usage[..|usage|] == usage && usage[|usage|..] == [];
    }

    /** Pushes failed rows back. With no producer racing for the freed slots the
        returned count is always 0: the rows it sheds, the oldest of each buffer
        beyond capacity, are never counted. */
    method Requeue(inter: seq<Row>, usage: seq<Row>) returns (dropped: int)
      requires Valid() && OnTable(Rows(inter, usage))
      modifies this`interCh, this`usageCh, this`log
      ensures Valid() && dropped == 0
      ensures interCh == KeepNewest(old(interCh) + inter, maxRows)
      ensures usageCh == KeepNewest(old(usageCh) + usage, maxRows)
      ensures log == ShedLog(old(log), ShedOf(old(interCh) + inter, maxRows) + ShedOf(old(usageCh) + usage, maxRows))
      ensures CanReach(old(At(Pending(inter + usage), NONE)), At(Selecting, NONE))
    {
      ghost var start := At(Pending(inter + usage), NONE);
      dropped := RequeueInteractions(inter, usage);
      ghost var mid := At(Pending(usage), NONE);
      var more := RequeueUsage(usage);
      ShedLogTwice(old(log), ShedOf(old(interCh) + inter, maxRows), ShedOf(old(usageCh) + usage, maxRows));
      CanReachTrans(start, mid, At(Selecting, NONE));
      dropped := dropped + more;
    }

    /** Writes one batch per table and reports what the server did not take.
        `dialOk`, `interOk` and `usageOk` are the driver's answers. */
    method SendBatches(stash: Rows, dialOk: bool, interOk: bool, usageOk: bool)
      returns (inter: seq<Row>, usage: seq<Row>, err: bool)
      modifies this`dialed, this`log
      ensures inter == Unsent(dialed && interOk, stash.inter)
      ensures usage == Unsent(dialed && usageOk, stash.usage)
      ensures dialed == (old(dialed) || dialOk)
      ensures err <==> !dialed || inter + usage != []
      ensures log == old(log).(delivered := old(log.delivered)
                + (Unsent(!(dialed && interOk), stash.inter) + Unsent(!(dialed && usageOk), stash.usage)))
    {
      inter, usage, err := stash.inter, stash.usage, false;
      if !dialed {
        if !dialOk { return inter, usage, true; }
        dialed := true;
      }
      if |inter| > 0 {
        if !interOk {
          err := true;
        } else {
          log := log.(delivered := log.delivered + inter);
          inter := [];
        }
      }
      if |usage| > 0 {
        if !usageOk {
          err := true;
        } else {
          log := log.(delivered := log.delivered + usage);
          usage := [];
        }
      }
    }

    /** The protocol's state after a send that left these rows unsent. */
    ghost function AfterSend(final: bool, left: seq<Row>): State
      reads this
    {
      if final then
        At(Disconnecting, NONE).(finalErr := finalErr || left != [], log := log.(lost := log.lost + left))
      else At(Pending(left), NONE)
    }

    /** The send of a non-empty stash, as a step of the protocol. */
    method Transmit(stash: Rows, ghost final: bool, dialOk: bool, interOk: bool, usageOk: bool)
      returns (inter: seq<Row>, usage: seq<Row>, err: bool)
      requires Valid() && stash.Size() > 0
      modifies this`dialed, this`log
      ensures inter == (if dialed && interOk then [] else stash.inter)
      ensures usage == (if dialed && usageOk then [] else stash.usage)
      ensures dialed == (old(dialed) || dialOk) && (err <==> inter + usage != [])
      ensures log == old(log).(delivered := old(log.delivered)
                + ((if dialed && interOk then stash.inter else []) + (if dialed && usageOk then stash.usage else [])))
      ensures CanReach(old(At(Sending(final), stash)), AfterSend(final, inter + usage))
    {
      ghost var start := At(Sending(final), stash);
      assert Reaches(start, [], start);
      CanReachStep(start, start, Send(dialOk, interOk, usageOk));
      inter, usage, err := SendBatches(stash, dialOk, interOk, usageOk);
      assert log.lost + [] == log.lost;
    }

    /** Flushes the stash. Each table's rows are delivered if and only if there is a
        connection and the server takes that table's batch; exactly the refused
        rows go back to their buffers, or on the final flush are lost, and then the
        error is kept for Close. */
    method FlushStash(stash: Rows, final: bool, dialOk: bool, interOk: bool, usageOk: bool)
      requires Valid() && OnTable(stash)
      modifies this`dialed, this`log, this`finalErr, this`interCh, this`usageCh
      ensures Valid()
      ensures stash.Size() == 0 ==> At(Selecting, NONE) == old(At(Selecting, NONE))
      ensures stash.Size() > 0 ==> dialed == (old(dialed) || dialOk)
      ensures stash.Size() > 0 ==>
                log.delivered == old(log.delivered) + ((if dialed && interOk then stash.inter else [])
                                                       + (if dialed && usageOk then stash.usage else []))
      ensures stash.Size() > 0 ==>
                var inter := if dialed && interOk then [] else stash.inter;
                var usage := if dialed && usageOk then [] else stash.usage;
                if final then
                  && interCh == old(interCh) && usageCh == old(usageCh)
                  && log == old(log).(delivered := log.delivered, lost := old(log.lost) + (inter + usage))
                  && finalErr == (old(finalErr) || inter + usage != [])
                else
                  && interCh == KeepNewest(old(interCh) + inter, maxRows)
                  && usageCh == KeepNewest(old(usageCh) + usage, maxRows)
                  && log == ShedLog(old(log), ShedOf(old(interCh) + inter, maxRows) + ShedOf(old(usageCh) + usage, maxRows))
                            .(delivered := log.delivered)
                  && finalErr == old(finalErr)
      ensures stash.Size() > 0 && dialed && interOk && usageOk ==>
                && interCh == old(interCh) && usageCh == old(usageCh) && finalErr == old(finalErr)
                && log == old(log).(delivered := old(log.delivered) + (stash.inter + stash.usage))
      ensures stash.Size() > 0 ==>
                CanReach(old(At(Sending(final), stash)), At(if final then Disconnecting else Selecting, NONE))
    {
      if |stash.inter| == 0 && |stash.usage| == 0 { return; }
      ghost var start := At(Sending(final), stash);
      var inter, usage, err := Transmit(stash, final, dialOk, interOk, usageOk);
      NothingRefused();
      if !err { return; }
      ghost var mid := At(Requeuing(inter + usage), NONE);
      Refuse(inter, usage, final);
      if !final { CanReachTrans(start, mid, At(Selecting, NONE)); }
    }

    /** What becomes of the rows the server did not take: lost with the error kept on
        the final flush, requeued otherwise. */
    method Refuse(inter: seq<Row>, usage: seq<Row>, final: bool)
      requires Valid() && OnTable(Rows(inter, usage)) && inter + usage != []
      modifies this`log, this`finalErr, this`interCh, this`usageCh
      ensures Valid()
      ensures final ==>
                && interCh == old(interCh) && usageCh == old(usageCh) && finalErr
                && log == old(log).(lost := old(log.lost) + (inter + usage))
      ensures !final ==>
                && interCh == KeepNewest(old(interCh) + inter, maxRows)
                && usageCh == KeepNewest(old(usageCh) + usage, maxRows)
                && log == ShedLog(old(log), ShedOf(old(interCh) + inter, maxRows) + ShedOf(old(usageCh) + usage, maxRows))
                && finalErr == old(finalErr)
      ensures !final ==> CanReach(old(At(Requeuing(inter + usage), NONE)), At(Selecting, NONE))
    {
      if final {
        log := log.(lost := log.lost + (inter + usage));
        finalErr := true;
        return;
      }
      var dropped := Requeue(inter, usage);
    }

    /** Requeueing nothing changes nothing. */
    lemma NothingRefused()
      requires Valid()
      ensures KeepNewest(interCh + [], maxRows) == interCh && KeepNewest(usageCh + [], maxRows) == usageCh
      ensures ShedOf(interCh + [], maxRows) == [] && ShedOf(usageCh + [], maxRows) == []
      ensures ShedLog(log, [] + []) == log
      ensures log.lost + ([] + []) == log.lost
    {
      assert interCh + [] == interCh && usageCh + [] == usageCh;
      assert log.shed + ([] + []) == log.shed;
    }

    /** The exit path: final drain, last flush, connection close. With a healthy
        server everything stashed or buffered is delivered and nothing is lost. */
    method Shutdown(stash: Rows, dialOk: bool, interOk: bool, usageOk: bool, closeOk: bool)
      requires Valid() && OnTable(stash) && OnTable(Rows(interCh, usageCh))
      modifies this`dialed, this`log, this`finalErr, this`interCh, this`usageCh
      ensures interCh == [] && usageCh == [] && !dialed
      ensures
        var inter, usage := stash.inter + old(interCh), stash.usage + old(usageCh);
        var up := old(dialed) || (dialOk && inter + usage != []);
        var refused := (if up && interOk then [] else inter) + (if up && usageOk then [] else usage);
        && log == old(log).(
                    delivered := old(log.delivered) + ((if up && interOk then inter else []) + (if up && usageOk then usage else [])),
                    lost := old(log.lost) + refused)
        && finalErr == (old(finalErr) || refused != [] || (up && !closeOk))
      ensures (old(dialed) || dialOk) && interOk && usageOk ==>
                && log.delivered == old(log.delivered) + (stash.inter + old(interCh) + (stash.usage + old(usageCh)))
                && log.lost == old(log.lost) && log.shed == old(log.shed)
                && (closeOk ==> finalErr == old(finalErr))
      ensures CanReach(old(At(Draining(true), stash)), At(Exited, NONE))
    {
      ghost var start := At(Draining(true), stash);
      var drained := Drain(stash, true);
      CanReachStep(start, At(Draining(true), drained), DrainEmpty);
      assert log.delivered + ([] + []) == log.delivered && log.lost + ([] + []) == log.lost;
      FlushStash(drained, true, dialOk, interOk, usageOk);
      if drained.Size() > 0 {
        ghost var mid := old(At(Draining(true), stash)).(
          buffers := NONE, stash := drained, flusher := Sending(true));
        CanReachTrans(start, mid, At(Disconnecting, NONE));
      } else {
        assert drained == NONE;
      }
      CanReachStep(start, At(Disconnecting, NONE), Disconnect(closeOk));
      if dialed {
        if !closeOk { finalErr := true; }
        dialed := false;
      }
    }
  }
}
