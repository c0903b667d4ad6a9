/** The workflow ladders over the audit store: whatever is duplicated, delayed or
    marked in between, the recorded trace is a prefix of the workflow's ladder. */
module WorkflowLadder {
  import opened WorkflowStore
  import opened Wrappers

  // ---- the engine's step table ----

  function FirstStep(k: Kind): Step {
    if k.Callback? then Scheduled else Contacted
  }

  /** One engine.advance: the channels it sends on, the steps it records, the step it
      leaves current, and how long it waits; without a wait it completes. */
  datatype Advance = Advance(sends: seq<string>, recorded: seq<Step>, next: Step, wait: Option<int>)

  function EngineTable(k: Kind, step: Step): Advance {
    match (k, step)
    case (Callback, Scheduled) => Advance(["sms"], [Contacted, Closed], Closed, None)
    case (Collections, Contacted) => Advance(["sms"], [Contacted], Waited, Some(48 * 3600))
    case (Collections, Waited) => Advance(["whatsapp"], [Waited], Escalated, Some(72 * 3600))
    case (Collections, Escalated) => Advance([], [TaskCreated, Closed], Closed, None)
    case _ => Advance([], [Closed], Closed, None)
  }

  /** How many waits lie ahead of a step. */
  function WaitsAhead(k: Kind, step: Step): nat {
    if k.Callback? then 0
    else match step case Contacted => 2 case Waited => 1 case _ => 0
  }

  /** The trace the engine leaves when its table is iterated from a step until
      the instance is sealed. */
  function EngineTrace(k: Kind, step: Step): seq<Step>
    decreases WaitsAhead(k, step)
  {
    var a := EngineTable(k, step);
    if a.wait.Some? then a.recorded + EngineTrace(k, a.next) else a.recorded
  }

  /** The channels the engine sends on from a step until it seals, in order. */
  function EngineSends(k: Kind, step: Step): seq<string>
    decreases WaitsAhead(k, step)
  {
    var a := EngineTable(k, step);
    if a.wait.Some? then a.sends + EngineSends(k, a.next) else a.sends
  }

  /** Its waits in between. */
  function EngineWaits(k: Kind, step: Step): seq<int>
    decreases WaitsAhead(k, step)
  {
    var a := EngineTable(k, step);
    if a.wait.Some? then [a.wait.value] + EngineWaits(k, a.next) else []
  }

  // ---- the driver's ladder ----

  /** Values of current_step over the life of an instance. */
  function Chain(k: Kind): seq<Step> {
    if k.Callback? then [Scheduled, Contacted, Closed]
    else [Contacted, Waited, Escalated, TaskCreated, Closed]
  }

  /** The full trace: the start row, then one row per guarded write. */
  function Ladder(k: Kind): seq<Step> {
    if k.Callback? then [Scheduled, Contacted, Closed]
    else [Contacted, Contacted, Waited, TaskCreated, Closed]
  }

  /** The writes the workflow of kind k ever sends, whatever run time it stamps. */
  predicate Emits(k: Kind, w: Write) {
    match w
    case MarkCanceled => true
    case MarkFailed(_) => true
    case Complete(prev) => prev == if k.Callback? then Contacted else TaskCreated
    case RecordStep(prev, doneStep, next) =>
      if k.Callback? then prev == Scheduled && doneStep == Contacted && next.None?
      else
        || (prev == Contacted && doneStep == Contacted && next.Some? && next.value.step == Waited)
        || (prev == Waited && doneStep == Waited && next.Some? && next.value.step == Escalated)
        || (prev == Escalated && doneStep == TaskCreated && next.None?)
  }

  /** The instance has climbed n rungs. */
  predicate Climbed(a: Audit, n: nat) {
    var k := a.inst.kind;
    && 1 <= n <= |Ladder(k)|
    && a.trace == Ladder(k)[..n]
    && a.inst.currentStep == Chain(k)[n - 1]
    && (a.inst.status == Completed <==> n == |Ladder(k)|)
  }

  /** A write that would move the instance off its current step. */
  predicate Matches(a: Audit, w: Write) {
    (w.RecordStep? || w.Complete?) && w.prev == a.inst.currentStep
  }

  lemma WriteClimbs(b: Backend, a: Audit, w: Write, n: nat)
    requires Climbed(a, n) && Emits(a.inst.kind, w)
    ensures Climbed(Write1(b, a, w), if Matches(a, w) then n + 1 else n)
    ensures Write1(b, a, w).inst.kind == a.inst.kind && Write1(b, a, w).inst.tenantId == a.inst.tenantId
    ensures n == |Ladder(a.inst.kind)| ==> Write1(b, a, w) == a
  {
    var l := Ladder(a.inst.kind);
    if Matches(a, w) {
      assert l[..n] + [l[n]] == l[..n + 1];
    }
  }

  /** Messages addressed to (id, tenantId) are writes of that workflow; anything
      may be addressed elsewhere. */
  ghost predicate Traffic(ms: seq<Message>, id: string, tenantId: string, k: Kind) {
    forall m | m in ms && m.id == id && m.tenantId == tenantId :: Emits(k, m.write)
  }

  lemma DeliverOne(b: Backend, rows: Rows, m: Message, id: string, n: nat)
    requires id in rows && Climbed(rows[id], n)
    requires m.id == id && m.tenantId == rows[id].inst.tenantId ==> Emits(rows[id].inst.kind, m.write)
    ensures id in Deliver(b, rows, m) && Deliver(b, rows, m)[id].inst.kind == rows[id].inst.kind
    ensures Deliver(b, rows, m)[id].inst.tenantId == rows[id].inst.tenantId
    ensures Climbed(Deliver(b, rows, m)[id], n) ||
            (m.id == id && m.tenantId == rows[id].inst.tenantId && Matches(rows[id], m.write)
             && Climbed(Deliver(b, rows, m)[id], n + 1))
  {
    if m.id == id && m.tenantId == rows[id].inst.tenantId { WriteClimbs(b, rows[id], m.write, n); }
  }

  /** Under arbitrary duplication, delay and reordering of the activities, with
      cancel and failure marks anywhere and other instances busy, the trace is a
      prefix of the ladder that only grows. */
  lemma {:induction false} TraceIsLadderPrefix(b: Backend, rows: Rows, ms: seq<Message>, id: string, n: nat)
    returns (m: nat)
    requires id in rows && Climbed(rows[id], n)
    requires Traffic(ms, id, rows[id].inst.tenantId, rows[id].inst.kind)
    ensures
      var after := DeliverAll(b, rows, ms);
      && id in after && n <= m && Climbed(after[id], m) && after[id].inst.kind == rows[id].inst.kind
      && after[id].inst.tenantId == rows[id].inst.tenantId
      && after[id].trace == Ladder(rows[id].inst.kind)[..m]
    decreases |ms|
  {
    m := n;
    if ms != [] {
      DeliverOne(b, rows, ms[0], id, n);
      var next := Deliver(b, rows, ms[0]);
      if Climbed(next[id], n) {
        m := TraceIsLadderPrefix(b, next, ms[1..], id, n);
      } else {
        m := TraceIsLadderPrefix(b, next, ms[1..], id, n + 1);
      }
    }
  }

  lemma StartClimbs(inst: Instance)
    requires inst.currentStep == FirstStep(inst.kind) && inst.status == WaitingTimer
    ensures Climbed(Started(inst), 1)
  {
  }

  /** A completed instance is never changed again, not even by a late mark. */
  lemma {:induction false} CompletedAbsorbs(b: Backend, rows: Rows, ms: seq<Message>, id: string)
    requires id in rows && Climbed(rows[id], |Ladder(rows[id].inst.kind)|)
    requires Traffic(ms, id, rows[id].inst.tenantId, rows[id].inst.kind)
    ensures id in DeliverAll(b, rows, ms) && DeliverAll(b, rows, ms)[id] == rows[id]
    decreases |ms|
  {
    if ms != [] {
      if ms[0].id == id && ms[0].tenantId == rows[id].inst.tenantId {
        WriteClimbs(b, rows[id], ms[0].write, |Ladder(rows[id].inst.kind)|);
      }
      CompletedAbsorbs(b, Deliver(b, rows, ms[0]), ms[1..], id);
    }
  }

  ghost predicate Revives(ms: seq<Message>, id: string, a: Audit) {
    exists m :: m in ms && m.id == id && m.tenantId == a.inst.tenantId && Matches(a, m.write)
  }

  /** Canceled and failed are not terminal: the guard of RecordStep and of
      CompleteInstance looks at the step only. A marked instance stays as it is
      if and only if no write for its current step is delivered any more. */
  lemma {:induction false} MarkSticksIffNoLateWrite(b: Backend, rows: Rows, ms: seq<Message>, id: string, n: nat)
    requires id in rows && Climbed(rows[id], n)
    requires rows[id].inst.status == Canceled || rows[id].inst.status == Failed
    requires Traffic(ms, id, rows[id].inst.tenantId, rows[id].inst.kind)
    ensures (id in DeliverAll(b, rows, ms) && DeliverAll(b, rows, ms)[id] == rows[id])
            <==> !Revives(ms, id, rows[id])
    decreases |ms|
  {
    if ms == [] {
    } else if ms[0].id == id && ms[0].tenantId == rows[id].inst.tenantId && Matches(rows[id], ms[0].write) {
      WriteClimbs(b, rows[id], ms[0].write, n);
      var m := TraceIsLadderPrefix(b, Deliver(b, rows, ms[0]), ms[1..], id, n + 1);
      assert |rows[id].trace| == n;
    } else {
      var next := Deliver(b, rows, ms[0]);
      assert next[id] == rows[id];
      assert Revives(ms, id, rows[id]) <==> Revives(ms[1..], id, rows[id]) by {
        assert ms == [ms[0]] + ms[1..];
      }
      MarkSticksIffNoLateWrite(b, next, ms[1..], id, n);
    }
  }

  /** A late write after a cancel puts the instance back to waiting. */
  lemma LateWriteRevivesCanceled(b: Backend, id: string, inst: Instance, at: int)
    requires inst.kind == Collections && inst.status == WaitingTimer && inst.currentStep == Contacted
    ensures
      var ms := [Message(id, inst.tenantId, MarkCanceled),
                 Message(id, inst.tenantId, RecordStep(Contacted, Contacted, Some(NextStep(Waited, at))))];
      var after := DeliverAll(b, map[id := Started(inst)], ms);
      id in after && after[id].inst.status == WaitingTimer
  {
    var cancel := Message(id, inst.tenantId, MarkCanceled);
    var late := Message(id, inst.tenantId, RecordStep(Contacted, Contacted, Some(NextStep(Waited, at))));
    var rows := map[id := Started(inst)];
    assert [cancel, late][1..] == [late] && [late][1..] == [];
    assert DeliverAll(b, Deliver(b, rows, cancel), [late]) == Deliver(b, Deliver(b, rows, cancel), late);
  }

  /** A run nobody interrupted leaves the trace the engine's own step table
      leaves: the start row, then the table iterated until the instance seals. */
  lemma LadderIsEngineTrace(k: Kind)
    ensures Ladder(k) == [FirstStep(k)] + EngineTrace(k, FirstStep(k))
  {
    if k.Collections? {
      assert EngineTrace(k, Contacted) == [Contacted] + EngineTrace(k, Waited);
      assert EngineTrace(k, Waited) == [Waited] + EngineTrace(k, Escalated);
    }
  }

  /** Rung by rung the driver agrees with the engine's table: from every step but
      the last, the driver's next trace rows are the rows the table records, and
      its current step after them is the one the table leaves current, which is the
      last one exactly when the table seals. */
  lemma ChainIsEngineChain(k: Kind, i: nat)
    requires i + 1 < |Chain(k)|
    ensures
      var a := EngineTable(k, Chain(k)[i]);
      var n := |a.recorded|;
      && i + n < |Chain(k)| == |Ladder(k)| && Ladder(k)[i + 1..i + 1 + n] == a.recorded
      && Chain(k)[i + n] == a.next && (a.wait.Some? <==> i + n + 1 < |Chain(k)|)
  {
  }

  // ---- the two backends ----

  /** The rungs a write without a next step leaves current. */
  predicate TimerMayLinger(a: Audit) {
    a.inst.currentStep == (if a.inst.kind.Callback? then Contacted else TaskCreated) && a.inst.status != Canceled
  }

  /** Equal but for a next_run_at the memory store may have left behind. */
  predicate Agree(m: Audit, p: Audit) {
    && m.trace == p.trace
    && m.inst.(nextRunAt := None) == p.inst.(nextRunAt := None)
    && (TimerMayLinger(m) || m.inst.nextRunAt == p.inst.nextRunAt)
  }

  lemma WriteAgrees(m: Audit, p: Audit, w: Write, n: nat)
    requires Climbed(m, n) && Climbed(p, n) && Agree(m, p) && Emits(m.inst.kind, w)
    ensures Agree(Write1(Memory, m, w), Write1(Postgres, p, w))
  {
  }

  /** The two stores never disagree on status, step, error or trace, and on
      next_run_at only while the rung before the seal is current. */
  lemma {:induction false} BackendsAgree(m: Audit, p: Audit, ws: seq<Write>, n: nat) returns (m': Audit, p': Audit)
    requires Climbed(m, n) && Climbed(p, n) && Agree(m, p)
    requires forall w | w in ws :: Emits(m.inst.kind, w)
    ensures m' == WriteAll(Memory, m, ws) && p' == WriteAll(Postgres, p, ws) && Agree(m', p')
    decreases |ws|
  {
    if ws == [] {
      m', p' := m, p;
    } else {
      WriteAgrees(m, p, ws[0], n);
      WriteClimbs(Memory, m, ws[0], n);
      WriteClimbs(Postgres, p, ws[0], n);
      m', p' := BackendsAgree(Write1(Memory, m, ws[0]), Write1(Postgres, p, ws[0]), ws[1..],
                              if Matches(m, ws[0]) then n + 1 else n);
    }
  }

  function WriteAll(b: Backend, a: Audit, ws: seq<Write>): Audit
    decreases |ws|
  {
    if ws == [] then a else WriteAll(b, Write1(b, a, ws[0]), ws[1..])
  }
}
