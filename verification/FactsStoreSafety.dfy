/** What every run of the facts store keeps: no accepted row is ever unaccounted
    for, the buffers stay bounded, and Close reports every loss it causes. */
module FactsStoreSafety {
  import opened Counting
  import opened Facts
  import opened FactsStoreProtocol

  /** The rows whose Handle call returned nil, in the order the calls began. */
  ghost function AcceptedRows(calls: seq<Call>): seq<Row> {
    if calls == [] then []
    else
      var last := calls[|calls| - 1];
      AcceptedRows(calls[..|calls| - 1]) + (if last.phase == Accepted then [last.row] else [])
  }

  lemma {:induction false} AcceptedRowsSettle(calls: seq<Call>, i: nat, p: Phase, r: Row)
    requires i < |calls| && InFlight(calls[i])
    ensures Count(AcceptedRows(calls[i := calls[i].(phase := p)]), r) ==
            Count(AcceptedRows(calls), r) + (if p == Accepted && calls[i].row == r then 1 else 0)
    decreases |calls|
  {
    var n := |calls| - 1;
    var after := calls[i := calls[i].(phase := p)];
    if i == n {
      assert after[..n] == calls[..n];
      CountAdd(AcceptedRows(calls[..n]), calls[i].row, r);
      assert AcceptedRows(calls[..n]) + [] == AcceptedRows(calls[..n]);
    } else {
      assert after[..n] == calls[..n][i := calls[i].(phase := p)];
      AcceptedRowsSettle(calls[..n], i, p, r);
      var tail := if calls[n].phase == Accepted then [calls[n].row] else [];
      CountConcat(AcceptedRows(after[..n]), tail, r);
      CountConcat(AcceptedRows(calls[..n]), tail, r);
    }
  }

  lemma AcceptedRowsEnter(calls: seq<Call>, c: Call)
    requires c.phase != Accepted
    ensures AcceptedRows(calls + [c]) == AcceptedRows(calls)
  {
    assert (calls + [c])[..|calls|] == calls;
  }

  /** Rows the flusher holds outside buffers and stash while it requeues. */
  function InHand(f: Flusher): seq<Row> {
    match f
    case Requeuing(todo) => todo
    case Shedding(todo) => todo
    case Retrying(todo) => todo
    case _ => []
  }

  ghost function Copies(rows: Rows, r: Row): nat {
    Count(rows.inter, r) + Count(rows.usage, r)
  }

  ghost function Left(log: History, r: Row): nat {
    Count(log.delivered, r) + Count(log.shed, r) + Count(log.lost, r)
  }

  /** Copies of r that are waiting, in the flusher's hands, delivered, shed by a
      requeue, or refused by the server on the final flush. */
  ghost function Held(s: State, r: Row): nat {
    Copies(s.buffers, r) + Copies(s.stash, r) + Count(InHand(s.flusher), r) + Left(s.log, r)
  }

  /** No accepted row is unaccounted for, and none is counted twice. */
  ghost predicate Conserved(s: State) {
    forall r: Row :: Count(AcceptedRows(s.calls), r) == Held(s, r)
  }

  lemma CopiesPush(rows: Rows, x: Row, r: Row)
    ensures Copies(rows.Push(x), r) == Copies(rows, r) + if x == r then 1 else 0
  {
    CountAdd(rows.Of(TableOf(x)), x, r);
  }

  lemma CopiesAdd(rows: Rows, t: Table, x: Row, r: Row)
    ensures Copies(rows.With(t, rows.Of(t) + [x]), r) == Copies(rows, r) + if x == r then 1 else 0
  {
    CountAdd(rows.Of(t), x, r);
  }

  lemma CopiesDrop(rows: Rows, t: Table, r: Row)
    requires rows.Of(t) != []
    ensures Copies(rows.With(t, rows.Of(t)[1..]), r) + (if rows.Of(t)[0] == r then 1 else 0)
         == Copies(rows, r)
  {
  }

  lemma AcceptConserves(s: State, i: nat, r: Row)
    requires i < |s.calls| && InFlight(s.calls[i])
    ensures
      var t := Push(Settle(s, i, Accepted), s.calls[i].row);
      Count(AcceptedRows(t.calls), r) - Held(t, r) == Count(AcceptedRows(s.calls), r) - Held(s, r)
  {
    AcceptedRowsSettle(s.calls, i, Accepted, r);
    CopiesPush(s.buffers, s.calls[i].row, r);
  }

  lemma SettleConserves(s: State, i: nat, p: Phase, r: Row)
    requires i < |s.calls| && InFlight(s.calls[i]) && p != Accepted
    ensures
      var t := Settle(s, i, p);
      Count(AcceptedRows(t.calls), r) - Held(t, r) == Count(AcceptedRows(s.calls), r) - Held(s, r)
  {
    AcceptedRowsSettle(s.calls, i, p, r);
  }

  lemma ProduceConserves(s: State, p: ProducerStep, r: Row)
    requires ProducerEnabled(s, p)
    ensures
      var t := Produce(s, p);
      Count(AcceptedRows(t.calls), r) - Held(t, r) == Count(AcceptedRows(s.calls), r) - Held(s, r)
  {
    match p
    case Enter(row) =>
      AcceptedRowsEnter(s.calls, Call(row, if s.closer.NotCalled? then Trying else Refused(StoreClosed)));
    case TrySend(i) =>
      if HasRoom(s, s.calls[i].row) { AcceptConserves(s, i, r); } else { SettleConserves(s, i, Waiting, r); }
    case SendWaiting(i) => AcceptConserves(s, i, r);
    case Cancel(i) => SettleConserves(s, i, Refused(Cancelled), r);
    case TimeOut(i) => SettleConserves(s, i, Refused(Backpressure), r);
    case SeeStopping(i) => SettleConserves(s, i, Refused(StoreClosed), r);
  }

  lemma TakeHeld(s: State, t: Table, r: Row)
    requires FlusherEnabled(s, Take(t))
    ensures Held(TakeRow(s, t), r) == Held(s, r)
  {
    CopiesDrop(s.buffers, t, r);
    CopiesAdd(s.stash, t, s.buffers.Of(t)[0], r);
  }

  lemma UnsentSplit(a: seq<Row>, b: seq<Row>, i: bool, u: bool, r: Row)
    ensures Count(Unsent(i, a) + Unsent(u, b), r) + Count(Unsent(!i, a) + Unsent(!u, b), r)
         == Count(a, r) + Count(b, r)
  {
    CountConcat(Unsent(i, a), Unsent(u, b), r);
    CountConcat(Unsent(!i, a), Unsent(!u, b), r);
  }

  /** A flush splits the stash into a delivered part and a part that is in hand
      afterwards, or lost when this was the final flush. */
  lemma SendShape(s: State, dialOk: bool, interOk: bool, usageOk: bool) returns (i: bool, u: bool)
    requires s.flusher.Sending?
    ensures
      var t := SendAll(s, dialOk, interOk, usageOk);
      var left := Unsent(i, s.stash.inter) + Unsent(u, s.stash.usage);
      && t.buffers == s.buffers && t.stash == NONE
      && t.log.delivered == s.log.delivered + (Unsent(!i, s.stash.inter) + Unsent(!u, s.stash.usage))
      && t.log.shed == s.log.shed
      && t.log.lost == s.log.lost + (if s.flusher.final then left else [])
      && InHand(t.flusher) == (if s.flusher.final then [] else left)
  {
    i := (s.dialed || dialOk) && interOk;
    u := (s.dialed || dialOk) && usageOk;
  }

  lemma SendHeld(s: State, dialOk: bool, interOk: bool, usageOk: bool, r: Row)
    requires s.flusher.Sending?
    ensures Held(SendAll(s, dialOk, interOk, usageOk), r) == Held(s, r)
  {
    var i, u := SendShape(s, dialOk, interOk, usageOk);
    UnsentSplit(s.stash.inter, s.stash.usage, i, u, r);
    var left := Unsent(i, s.stash.inter) + Unsent(u, s.stash.usage);
    CountConcat(s.log.delivered, Unsent(!i, s.stash.inter) + Unsent(!u, s.stash.usage), r);
    CountConcat(s.log.lost, if s.flusher.final then left else [], r);
  }

  lemma NextInHand(todo: seq<Row>, r: Row)
    requires todo != []
    ensures Count(InHand(NextOffer(todo)), r) + (if todo[0] == r then 1 else 0) == Count(todo, r)
  {
    assert |todo| == 1 ==> todo[1..] == [];
  }

  lemma OfferHeld(s: State, r: Row)
    requires s.flusher.Requeuing? && s.flusher.todo != []
    ensures Held(OfferRow(s), r) == Held(s, r)
  {
    NextInHand(s.flusher.todo, r);
    CopiesPush(s.buffers, s.flusher.todo[0], r);
  }

  lemma EvictHeld(s: State, r: Row)
    requires s.flusher.Shedding? && s.flusher.todo != []
    ensures Held(EvictHead(s), r) == Held(s, r)
  {
    var t := TableOf(s.flusher.todo[0]);
    if s.buffers.Of(t) != [] {
      CopiesDrop(s.buffers, t, r);
      CountAdd(s.log.shed, s.buffers.Of(t)[0], r);
    }
  }

  lemma ReofferHeld(s: State, r: Row)
    requires s.flusher.Retrying? && s.flusher.todo != []
    ensures Held(OfferAgain(s), r) == Held(s, r)
  {
    var x := s.flusher.todo[0];
    NextInHand(s.flusher.todo, r);
    CopiesPush(s.buffers, x, r);
    CountAdd(s.log.shed, x, r);
  }

  lemma FlushHeld(s: State, f: FlusherStep, r: Row)
    requires FlusherEnabled(s, f)
    ensures Held(Flush(s, f), r) == Held(s, r)
  {
    match f
    case Take(t) => TakeHeld(s, t, r);
    case Send(d, i, u) => SendHeld(s, d, i, u, r);
    case Offer => OfferHeld(s, r);
    case ShedHead => EvictHeld(s, r);
    case Reoffer => ReofferHeld(s, r);
    case _ => assert Flush(s, f).log == s.log && InHand(Flush(s, f).flusher) == InHand(s.flusher);
  }

  lemma FlushKeepsCalls(s: State, f: FlusherStep)
    requires FlusherEnabled(s, f)
    ensures Flush(s, f).calls == s.calls
  {
  }

  lemma ProducingConserves(s: State, p: ProducerStep)
    requires Conserved(s) && ProducerEnabled(s, p)
    ensures Conserved(Produce(s, p))
  {
    forall r: Row ensures Count(AcceptedRows(Produce(s, p).calls), r) == Held(Produce(s, p), r) {
      ProduceConserves(s, p, r);
    }
  }

  lemma FlushingConserves(s: State, f: FlusherStep)
    requires Conserved(s) && FlusherEnabled(s, f)
    ensures Conserved(Flush(s, f))
  {
    FlushKeepsCalls(s, f);
    forall r: Row ensures Count(AcceptedRows(Flush(s, f).calls), r) == Held(Flush(s, f), r) {
      FlushHeld(s, f, r);
    }
  }

  lemma ClosingConserves(s: State, c: CloserStep)
    requires Conserved(s) && CloserEnabled(s, c)
    ensures Conserved(Shut(s, c))
  {
    forall r: Row ensures Count(AcceptedRows(Shut(s, c).calls), r) == Held(Shut(s, c), r) {
      assert Count(AcceptedRows(s.calls), r) == Held(s, r);
    }
  }

  lemma StepConserves(s: State, a: Action)
    requires Conserved(s) && Enabled(s, a)
    ensures Conserved(Apply(s, a))
  {
    match a
    case Producing(p) => ProducingConserves(s, p);
    case Flushing(f) => FlushingConserves(s, f);
    case Closing(c) => ClosingConserves(s, c);
  }

  // ---- shape of reachable states ----

  predicate OnTable(rows: Rows) {
    (forall r | r in rows.inter :: r.InteractionRow?) && (forall r | r in rows.usage :: r.UsageRow?)
  }

  /** Each fact table's rows travel only on that table's buffer and batch. */
  predicate Sorted(s: State) {
    OnTable(s.buffers) && OnTable(s.stash)
  }

  predicate Bounded(s: State) {
    && s.cap >= 1
    && |s.buffers.inter| <= s.cap
    && |s.buffers.usage| <= s.cap
    && (s.flusher.Selecting? ==> s.stash.Size() < s.cap)
    && (s.flusher.Sending? ==> s.stash.Size() > 0)
  }

  predicate Requeues(f: Flusher) {
    f.Requeuing? || f.Shedding? || f.Retrying?
  }

  predicate Gone(f: Flusher) {
    f.Disconnecting? || f.Exited?
  }

  predicate ShuttingDown(f: Flusher) {
    f == Draining(true) || f == Sending(true) || Gone(f)
  }

  /** Shutdown order: producers are gone before the flusher starts its final
      drain, so what it drains is everything and nothing arrives behind it. */
  predicate Ordered(s: State) {
    && (StopClosed(s.closer) ==> Settled(s.calls))
    && (ShuttingDown(s.flusher) ==> StopClosed(s.closer))
    && (s.closer.Returned? ==> s.flusher.Exited?)
    && (Requeues(s.flusher) ==> s.stash == NONE && InHand(s.flusher) != [])
    && (s.flusher == Sending(true) || Gone(s.flusher) ==> s.buffers == NONE)
    && (Gone(s.flusher) ==> s.stash == NONE)
  }

  /** Losing rows is possible only on the final flush, and is never silent; a
      requeue reports fewer rows than it sheds. */
  predicate Reported(s: State) {
    && (s.log.lost != [] ==> s.finalErr && Gone(s.flusher))
    && (s.closer.Returned? ==> s.closer.failed == s.finalErr)
    && |s.log.shed| == s.log.headSheds + s.log.reported
    && (s.log.reported > 0 || s.flusher.Retrying? ==> s.log.headSheds > 0)
    && (s.flusher.Shedding? ==> s.flusher.todo != [] && s.buffers.Of(TableOf(s.flusher.todo[0])) != [])
  }

  ghost predicate Inv(s: State) {
    Conserved(s) && Sorted(s) && Bounded(s) && Ordered(s) && Reported(s)
  }

  predicate Shape(s: State) {
    Sorted(s) && Bounded(s) && Ordered(s) && Reported(s)
  }

  lemma ProduceKeepsShape(s: State, p: ProducerStep)
    requires Shape(s) && ProducerEnabled(s, p)
    ensures Shape(Produce(s, p))
  {
  }

  lemma TakeKeepsShape(s: State, t: Table)
    requires Shape(s) && FlusherEnabled(s, Take(t))
    ensures Shape(TakeRow(s, t))
  {
  }

  lemma SendKeepsShape(s: State, dialOk: bool, interOk: bool, usageOk: bool)
    requires Shape(s) && s.flusher.Sending?
    ensures Shape(SendAll(s, dialOk, interOk, usageOk))
  {
  }

  lemma OfferKeepsShape(s: State)
    requires Shape(s) && s.flusher.Requeuing?
    ensures s.flusher.todo != [] && Shape(OfferRow(s))
  {
  }

  lemma EvictKeepsShape(s: State)
    requires Shape(s) && s.flusher.Shedding?
    ensures s.flusher.todo != [] && Shape(EvictHead(s))
  {
  }

  lemma ReofferKeepsShape(s: State)
    requires Shape(s) && s.flusher.Retrying?
    ensures s.flusher.todo != [] && Shape(OfferAgain(s))
  {
  }

  lemma FlushKeepsShape(s: State, f: FlusherStep)
    requires Shape(s) && FlusherEnabled(s, f)
    ensures Shape(Flush(s, f))
  {
    match f
    case Take(t) => TakeKeepsShape(s, t);
    case Send(d, i, u) => SendKeepsShape(s, d, i, u);
    case Offer => OfferKeepsShape(s);
    case ShedHead => EvictKeepsShape(s);
    case Reoffer => ReofferKeepsShape(s);
    case _ =>
  }

  lemma ShutKeepsShape(s: State, c: CloserStep)
    requires Shape(s) && CloserEnabled(s, c)
    ensures Shape(Shut(s, c))
  {
  }

  lemma StepKeepsInv(s: State, a: Action)
    requires Inv(s) && Enabled(s, a)
    ensures Inv(Apply(s, a))
  {
    StepConserves(s, a);
    match a
    case Producing(p) => ProduceKeepsShape(s, p);
    case Flushing(f) => FlushKeepsShape(s, f);
    case Closing(c) => ShutKeepsShape(s, c);
  }

  lemma {:induction false} RunKeepsInv(s: State, acts: seq<Action>, t: State)
    requires Inv(s) && Reaches(s, acts, t)
    ensures Inv(t)
    decreases |acts|
  {
    if acts != [] {
      StepKeepsInv(s, acts[0]);
      RunKeepsInv(Apply(s, acts[0]), acts[1..], t);
    }
  }
}
