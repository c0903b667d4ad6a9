/** What the facts store promises its callers, over every run: conservation,
    an honest Close that always gets to return, and what requeue really does
    with rows that find the buffers full. */
module FactsStoreClose {
  import opened Counting
  import opened Facts
  import opened FactsStoreProtocol
  import opened FactsStoreSafety

  lemma InitInv(cap: nat)
    requires cap >= 1
    ensures Inv(Init(cap))
  {
  }

  /** In every interleaving the accepted rows are exactly the delivered, waiting,
      stashed, requeued-in-hand, shed and lost ones, and the buffers never
      exceed their capacity. */
  lemma Conservation(cap: nat, acts: seq<Action>, s: State)
    requires cap >= 1 && Reaches(Init(cap), acts, s)
    ensures multiset(AcceptedRows(s.calls)) ==
            multiset(s.log.delivered + s.buffers.inter + s.buffers.usage + s.stash.inter
                     + s.stash.usage + InHand(s.flusher) + s.log.shed + s.log.lost)
    ensures |s.buffers.inter| <= s.cap && |s.buffers.usage| <= s.cap
    ensures s.flusher.Selecting? ==> s.stash.Size() < s.cap
  {
    InitInv(cap);
    RunKeepsInv(Init(cap), acts, s);
    var all := s.log.delivered + s.buffers.inter + s.buffers.usage + s.stash.inter
               + s.stash.usage + InHand(s.flusher) + s.log.shed + s.log.lost;
    forall r: Row
      ensures multiset(AcceptedRows(s.calls))[r] == multiset(all)[r]
    {
      HeldIsConcat(s, r);
      CountIsMultiplicity(AcceptedRows(s.calls), r);
      CountIsMultiplicity(all, r);
    }
  }

  lemma HeldIsConcat(s: State, r: Row)
    ensures Held(s, r) ==
            Count(s.log.delivered + s.buffers.inter + s.buffers.usage + s.stash.inter
                  + s.stash.usage + InHand(s.flusher) + s.log.shed + s.log.lost, r)
  {
    var a := s.log.delivered + s.buffers.inter;
    var b := a + s.buffers.usage;
    var c := b + s.stash.inter;
    var d := c + s.stash.usage;
    var e := d + InHand(s.flusher);
    CountConcat(s.log.delivered, s.buffers.inter, r);
    CountConcat(a, s.buffers.usage, r);
    CountConcat(b, s.stash.inter, r);
    CountConcat(c, s.stash.usage, r);
    CountConcat(d, InHand(s.flusher), r);
    CountConcat(e, s.log.shed, r);
    CountConcat(e + s.log.shed, s.log.lost, r);
  }

  /** Once Close has returned nothing is left inside the store, and a nil error
      means every accepted row was delivered or shed by an earlier requeue. */
  lemma CloseAccounts(cap: nat, acts: seq<Action>, s: State)
    requires cap >= 1 && Reaches(Init(cap), acts, s) && s.closer.Returned?
    ensures s.buffers == NONE && s.stash == NONE && InHand(s.flusher) == [] && Settled(s.calls)
    ensures multiset(AcceptedRows(s.calls)) == multiset(s.log.delivered + s.log.shed + s.log.lost)
    ensures !s.closer.failed ==> multiset(AcceptedRows(s.calls)) == multiset(s.log.delivered + s.log.shed)
  {
    Conservation(cap, acts, s);
    InitInv(cap);
    RunKeepsInv(Init(cap), acts, s);
    OnlyTheLog(s.log.delivered, s.log.shed, s.log.lost);
  }

  lemma OnlyTheLog(delivered: seq<Row>, shed: seq<Row>, lost: seq<Row>)
    ensures delivered + [] + [] + [] + [] + [] + shed + lost == delivered + shed + lost
    ensures lost == [] ==> delivered + shed + lost == delivered + shed
  {
  }

  /** A closed store is inert: later calls are refused, and nothing is accepted,
      delivered, shed or lost any more. */
  lemma {:induction false} ClosedIsInert(s: State, acts: seq<Action>, t: State)
    requires Inv(s) && s.closer.Returned? && Reaches(s, acts, t)
    ensures t.closer == s.closer && t.log == s.log && t.buffers == NONE
    ensures AcceptedRows(t.calls) == AcceptedRows(s.calls)
    decreases |acts|
  {
    if acts != [] {
      var a := acts[0];
      StepKeepsInv(s, a);
      assert a == Producing(Enter(a.p.row));
      AcceptedRowsEnter(s.calls, Call(a.p.row, Refused(StoreClosed)));
      ClosedIsInert(Apply(s, a), acts[1..], t);
    }
  }

  /** The overflow count requeue returns is right only while nothing was shed at
      all: the first shed row is always a buffer head, which it does not count. */
  lemma RequeueUndercounts(cap: nat, acts: seq<Action>, s: State)
    requires cap >= 1 && Reaches(Init(cap), acts, s)
    ensures s.log.reported <= |s.log.shed|
    ensures s.log.reported == |s.log.shed| <==> s.log.headSheds == 0
    ensures s.log.headSheds == 0 <==> s.log.shed == []
  {
    InitInv(cap);
    RunKeepsInv(Init(cap), acts, s);
  }

  // ---- a healthy server, and who is turned away ----

  /** The server takes every batch and every close of the connection. */
  ghost predicate Healthy(acts: seq<Action>) {
    forall a | a in acts && a.Flushing? ::
      && (a.f.Send? ==> a.f.dialOk && a.f.interOk && a.f.usageOk)
      && (a.f.Disconnect? ==> a.f.closeOk)
  }

  predicate Unscathed(s: State) {
    s.log.shed == [] && s.log.lost == [] && !s.finalErr && !Requeues(s.flusher) && !(s.closer.Returned? && s.closer.failed)
  }

  lemma {:induction false} HealthyKeepsUnscathed(s: State, acts: seq<Action>, t: State)
    requires Unscathed(s) && Healthy(acts) && Reaches(s, acts, t)
    ensures Unscathed(t)
    decreases |acts|
  {
    if acts != [] {
      assert acts[0] in acts;
      HealthyStep(s, acts[0]);
      assert forall a | a in acts[1..] :: a in acts;
      HealthyKeepsUnscathed(Apply(s, acts[0]), acts[1..], t);
    }
  }

  lemma HealthyStep(s: State, a: Action)
    requires Unscathed(s) && Enabled(s, a) && Healthy([a])
    ensures Unscathed(Apply(s, a))
  {
    assert a in [a];
  }

  /** While the server is healthy nothing is ever shed or lost, Close reports no
      error, and once it has returned every accepted row was delivered. */
  lemma HealthyServerDeliversAll(cap: nat, acts: seq<Action>, s: State)
    requires cap >= 1 && Reaches(Init(cap), acts, s) && Healthy(acts)
    ensures s.log.shed == [] && s.log.lost == [] && !s.finalErr
    ensures s.closer.Returned? ==> !s.closer.failed && multiset(AcceptedRows(s.calls)) == multiset(s.log.delivered)
  {
    HealthyKeepsUnscathed(Init(cap), acts, s);
    if s.closer.Returned? {
      CloseAccounts(cap, acts, s);
      assert s.log.delivered + s.log.shed == s.log.delivered;
    }
  }

  predicate TurnedAway(s: State) {
    forall i | 0 <= i < |s.calls| && s.calls[i].phase == Refused(StoreClosed) :: !s.closer.NotCalled?
  }

  /** A call is told that the store is closed only after Close was called. */
  lemma {:induction false} ClosedMeansClosed(s: State, acts: seq<Action>, t: State)
    requires TurnedAway(s) && Reaches(s, acts, t)
    ensures TurnedAway(t)
    decreases |acts|
  {
    if acts != [] { ClosedMeansClosed(Apply(s, acts[0]), acts[1..], t); }
  }

  // ---- Close never hangs ----

  function CallWork(calls: seq<Call>): nat {
    if calls == [] then 0
    else
      CallWork(calls[..|calls| - 1]) +
      (match calls[|calls| - 1].phase case Trying => 2 case Waiting => 1 case _ => 0)
  }

  lemma {:induction false} CallWorkSettle(calls: seq<Call>, i: nat, p: Phase)
    requires i < |calls| && InFlight(calls[i])
    requires p.Accepted? || p.Refused? || (p.Waiting? && calls[i].phase.Trying?)
    ensures CallWork(calls[i := calls[i].(phase := p)]) < CallWork(calls)
    decreases |calls|
  {
    var n := |calls| - 1;
    var after := calls[i := calls[i].(phase := p)];
    if i == n {
      assert after[..n] == calls[..n];
    } else {
      assert after[..n] == calls[..n][i := calls[i].(phase := p)];
      CallWorkSettle(calls[..n], i, p);
    }
  }

  /** The producer of an in-flight call always has a move once Close released
      the waiters, so no producer outlives the wait. */
  lemma ProducersLeave(s: State) returns (acts: seq<Action>, t: State)
    requires Inv(s) && s.closer.Releasing?
    ensures Reaches(s, acts, t) && Inv(t) && t.closer.Releasing? && Settled(t.calls)
    decreases CallWork(s.calls)
  {
    if Settled(s.calls) {
      acts, t := [], s;
    } else {
      var i: nat :| i < |s.calls| && InFlight(s.calls[i]);
      var a := Producing(if s.calls[i].phase.Trying? then TrySend(i) else SeeStopping(i));
      CallWorkSettle(s.calls, i, Apply(s, a).calls[i].phase);
      StepKeepsInv(s, a);
      var rest, u := ProducersLeave(Apply(s, a));
      ReachesOne(s, a);
      ReachesConcat(s, [a], Apply(s, a), rest, u);
      acts, t := [a] + rest, u;
    }
  }

  /** Distance of the flusher from its exit once the producers are gone. */
  function FlushWork(s: State): nat {
    var b, k := s.buffers.Size(), s.stash.Size();
    match s.flusher
    case Exited => 0
    case Disconnecting => 1
    case Sending(final) => if final then 2 else 11 + 5 * b + 4 * k
    case Draining(final) => if final then 3 + b else 12 + 5 * b + 4 * k
    case Selecting => 4 + b
    case Requeuing(todo) => 10 + b + 4 * |todo|
    case Shedding(todo) => 9 + b + 4 * |todo|
    case Retrying(todo) => 8 + b + 4 * |todo|
  }

  function NextFlush(s: State, up: bool): FlusherStep
    requires Inv(s) && !s.flusher.Exited?
  {
    match s.flusher
    case Selecting => SeeStop
    case Draining(_) =>
      if s.buffers.inter != [] then Take(Interactions)
      else if s.buffers.usage != [] then Take(Usage)
      else DrainEmpty
    case Sending(_) => Send(up, up, up)
    case Requeuing(_) => Offer
    case Shedding(_) => ShedHead
    case Retrying(_) => Reoffer
    case Disconnecting => Disconnect(up)
  }

  lemma SendProgress(s: State, up: bool)
    requires Inv(s) && StopClosed(s.closer) && s.flusher.Sending?
    ensures FlushWork(SendAll(s, up, up, up)) < FlushWork(s)
  {
    var t := SendAll(s, up, up, up);
    assert t.stash.Size() == 0 && t.buffers == s.buffers;
    assert t.flusher.Requeuing? ==> |t.flusher.todo| == s.stash.Size();
  }

  lemma DrainProgress(s: State, up: bool)
    requires Inv(s) && StopClosed(s.closer) && (s.flusher.Draining? || s.flusher.Selecting?)
    ensures FlusherEnabled(s, NextFlush(s, up))
    ensures FlushWork(Flush(s, NextFlush(s, up))) < FlushWork(s)
  {
  }

  lemma RequeueProgress(s: State, up: bool)
    requires Inv(s) && StopClosed(s.closer) && Requeues(s.flusher)
    ensures FlusherEnabled(s, NextFlush(s, up))
    ensures FlushWork(Flush(s, NextFlush(s, up))) < FlushWork(s)
  {
  }

  lemma FlushProgress(s: State, up: bool)
    requires Inv(s) && StopClosed(s.closer) && !s.flusher.Exited?
    ensures FlusherEnabled(s, NextFlush(s, up))
    ensures FlushWork(Flush(s, NextFlush(s, up))) < FlushWork(s)
  {
    match s.flusher
    case Sending(_) => SendProgress(s, up);
    case Selecting => DrainProgress(s, up);
    case Draining(_) => DrainProgress(s, up);
    case Disconnecting =>
    case _ => RequeueProgress(s, up);
  }

  lemma FlushKeepsCloser(s: State, f: FlusherStep)
    requires FlusherEnabled(s, f)
    ensures Flush(s, f).closer == s.closer
  {
  }

  /** From wherever the flusher stands when stop is closed, some schedule takes it
      to its exit. */
  lemma FlusherExits(s: State, up: bool) returns (acts: seq<Action>, t: State)
    requires Inv(s) && s.closer.Stopped?
    ensures Reaches(s, acts, t) && t.closer.Stopped? && t.flusher.Exited?
    decreases FlushWork(s)
  {
    if s.flusher.Exited? {
      acts, t := [], s;
    } else {
      FlushProgress(s, up);
      FlushKeepsCloser(s, NextFlush(s, up));
      var a := Flushing(NextFlush(s, up));
      StepKeepsInv(s, a);
      var rest, u := FlusherExits(Apply(s, a), up);
      ReachesOne(s, a);
      ReachesConcat(s, [a], Apply(s, a), rest, u);
      acts, t := [a] + rest, u;
    }
  }

  /** Once the shutdown has begun, every step the flusher can take brings it
      closer to its exit, whatever the server answers and whatever select picks. */
  lemma ShutdownStepProgress(s: State, f: FlusherStep)
    requires Shape(s) && ShuttingDown(s.flusher) && FlusherEnabled(s, f)
    ensures FlushWork(Flush(s, f)) < FlushWork(s) && ShuttingDown(Flush(s, f).flusher)
  {
  }

  lemma OthersLeaveFlusher(s: State, a: Action)
    requires Shape(s) && ShuttingDown(s.flusher) && Enabled(s, a) && !a.Flushing?
    ensures FlushWork(Apply(s, a)) == FlushWork(s) && Apply(s, a).flusher == s.flusher
  {
  }

  ghost function FlusherSteps(acts: seq<Action>): nat {
    if acts == [] then 0 else (if acts[0].Flushing? then 1 else 0) + FlusherSteps(acts[1..])
  }

  /** So on every schedule the flusher exits after a bounded number of its own
      steps, and until then it has a step to take. */
  lemma {:induction false} ShutdownBounded(s: State, acts: seq<Action>, t: State, up: bool)
    requires Inv(s) && ShuttingDown(s.flusher) && Reaches(s, acts, t)
    ensures Inv(t) && ShuttingDown(t.flusher) && FlusherSteps(acts) + FlushWork(t) <= FlushWork(s)
    ensures t.flusher.Exited? || FlusherEnabled(t, NextFlush(t, up))
    ensures FlusherSteps(acts) >= FlushWork(s) ==> t.flusher.Exited?
    decreases |acts|
  {
    if acts == [] {
      if !s.flusher.Exited? { FlushProgress(s, up); }
    } else {
      var a := acts[0];
      StepKeepsInv(s, a);
      match a {
        case Flushing(f) => ShutdownStepProgress(s, f);
        case _ => OthersLeaveFlusher(s, a);
      }
      ShutdownBounded(Apply(s, a), acts[1..], t, up);
    }
  }

  /** From every reachable state in which Close was called it can still return,
      whether the server is up or down: no state of the shutdown is a deadlock. */
  lemma CloseCompletes(s: State, up: bool) returns (acts: seq<Action>, t: State)
    requires Inv(s) && !s.closer.NotCalled?
    ensures Reaches(s, acts, t) && t.closer.Returned?
    decreases match s.closer case Marked => 3 case Releasing => 2 case Stopped => 1 case _ => 0
  {
    match s.closer
    case Returned(_) => acts, t := [], s;
    case Marked =>
      var a := Closing(ReleaseWaiters);
      StepKeepsInv(s, a);
      var rest, u := CloseCompletes(Apply(s, a), up);
      ReachesOne(s, a);
      ReachesConcat(s, [a], Apply(s, a), rest, u);
      acts, t := [a] + rest, u;
    case Releasing =>
      var first, mid := ProducersLeave(s);
      var a := Closing(AwaitProducers);
      StepKeepsInv(mid, a);
      var rest, u := CloseCompletes(Apply(mid, a), up);
      ReachesOne(mid, a);
      ReachesConcat(mid, [a], Apply(mid, a), rest, u);
      ReachesConcat(s, first, mid, [a] + rest, u);
      acts, t := first + ([a] + rest), u;
    case Stopped =>
      var first, mid := FlusherExits(s, up);
      var a := Closing(ReturnClose);
      ReachesOne(mid, a);
      ReachesConcat(s, first, mid, [a], Apply(mid, a));
      acts, t := first + [a], Apply(mid, a);
  }
}
