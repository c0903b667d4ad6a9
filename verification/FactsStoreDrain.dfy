/** How much one drain of the facts store piles up while producers keep sending. */
module FactsStoreDrain {
  import opened Facts
  import opened FactsStoreProtocol
  import opened FactsStoreSafety
  import opened FactsStoreFlusher

  /** A run inside one drain: the flusher is draining and does not yet find both
      buffers empty. Producers and Close do what they like meanwhile. */
  ghost predicate WithinDrain(s: State, acts: seq<Action>, t: State) {
    s.flusher.Draining? && Reaches(s, acts, t) && Flushing(DrainEmpty) !in acts
  }

  /** Rows accepted between two states of a run. */
  ghost function AcceptedBetween(s: State, t: State): int {
    |AcceptedRows(t.calls)| - |AcceptedRows(s.calls)|
  }

  lemma {:induction false} SettledLength(calls: seq<Call>, i: nat, p: Phase)
    requires i < |calls| && InFlight(calls[i])
    ensures |AcceptedRows(calls[i := calls[i].(phase := p)])| ==
            |AcceptedRows(calls)| + if p == Accepted then 1 else 0
    decreases |calls|
  {
    var n := |calls| - 1;
    var after := calls[i := calls[i].(phase := p)];
    if i == n {
      assert after[..n] == calls[..n];
    } else {
      assert after[..n] == calls[..n][i := calls[i].(phase := p)];
      SettledLength(calls[..n], i, p);
    }
  }

  lemma ProduceTotal(s: State, p: ProducerStep)
    requires ProducerEnabled(s, p)
    ensures
      var t := Produce(s, p);
      && t.flusher == s.flusher && t.stash == s.stash && t.cap == s.cap
      && t.buffers.Size() == s.buffers.Size() + AcceptedBetween(s, t)
  {
    match p {
      case Enter(row) =>
        AcceptedRowsEnter(s.calls, Call(row, if s.closer.NotCalled? then Trying else Refused(StoreClosed)));
      case TrySend(i) => SettledLength(s.calls, i, if HasRoom(s, s.calls[i].row) then Accepted else Waiting);
      case SendWaiting(i) => SettledLength(s.calls, i, Accepted);
      case Cancel(i) => SettledLength(s.calls, i, Refused(Cancelled));
      case TimeOut(i) => SettledLength(s.calls, i, Refused(Backpressure));
      case SeeStopping(i) => SettledLength(s.calls, i, Refused(StoreClosed));
    }
  }

  lemma StepTotal(s: State, a: Action)
    requires s.flusher.Draining? && Enabled(s, a) && a != Flushing(DrainEmpty)
    ensures
      var t := Apply(s, a);
      && t.flusher == s.flusher && t.cap == s.cap
      && t.stash.Size() + t.buffers.Size() == s.stash.Size() + s.buffers.Size() + AcceptedBetween(s, t)
  {
    match a {
      case Producing(p) => ProduceTotal(s, p);
      case Flushing(f) => FlushKeepsCalls(s, f);
      case Closing(c) =>
    }
  }

  /** Within a drain the stash and the buffers together grow by exactly the rows
      accepted meanwhile. */
  lemma {:induction false} DrainTotal(s: State, acts: seq<Action>, t: State)
    requires WithinDrain(s, acts, t)
    ensures t.flusher == s.flusher && t.cap == s.cap
    ensures t.stash.Size() + t.buffers.Size() == s.stash.Size() + s.buffers.Size() + AcceptedBetween(s, t)
    decreases |acts|
  {
    if acts != [] {
      StepTotal(s, acts[0]);
      assert forall a | a in acts[1..] :: a in acts;
      DrainTotal(Apply(s, acts[0]), acts[1..], t);
    }
  }

  /** The comment on drain says its take is bounded by the two buffers' capacities.
      A drain that has emptied the buffers has kept to that if and only if the
      producers got no more rows in meanwhile than the buffers had room for when it
      began; with producers quiet it always does. */
  lemma DrainBoundedIff(s: State, acts: seq<Action>, t: State)
    requires Inv(s) && WithinDrain(s, acts, t) && t.buffers == NONE
    ensures t.stash.Size() - s.stash.Size() <= 2 * s.cap <==>
            AcceptedBetween(s, t) <= 2 * s.cap - s.buffers.Size()
    ensures AcceptedBetween(s, t) <= 0 ==> t.stash.Size() - s.stash.Size() <= 2 * s.cap
  {
    DrainTotal(s, acts, t);
  }

  /** A drain racing producers has no bound: for every n some run of a store of
      any capacity stashes n rows in one drain, before the first flush. */
  lemma {:induction false} DrainOutgrowsBuffers(cap: nat, n: nat, r: Row) returns (s: State)
    requires cap >= 1 && n >= 1
    ensures CanReach(Init(cap), s)
    ensures s.flusher == Draining(false) && s.stash.Size() == n && s.buffers == NONE
    ensures s.closer.NotCalled? && s.cap == cap
    decreases n
  {
    var t := Init(cap);
    if n > 1 {
      t := DrainOutgrowsBuffers(cap, n - 1, r);
    } else {
      assert Reaches(t, [], t);
    }
    s := SendAndTake(t, r);
    CanReachTrans(Init(cap), t, s);
  }

  lemma SendAndTake(t: State, r: Row) returns (s: State)
    requires t.cap >= 1 && t.buffers == NONE && t.closer.NotCalled?
    requires t.flusher.Selecting? || t.flusher == Draining(false)
    ensures CanReach(t, s)
    ensures s.flusher == Draining(false) && s.stash.Size() == t.stash.Size() + 1 && s.buffers == NONE
    ensures s.closer.NotCalled? && s.cap == t.cap
  {
    var i := |t.calls|;
    var a := Apply(t, Producing(Enter(r)));
    var b := Apply(a, Producing(TrySend(i)));
    s := Apply(b, Flushing(Take(TableOf(r))));
    ReachesOne(t, Producing(Enter(r)));
    ReachesOne(a, Producing(TrySend(i)));
    ReachesOne(b, Flushing(Take(TableOf(r))));
    CanReachTrans(t, a, b);
    CanReachTrans(t, b, s);
  }
}
