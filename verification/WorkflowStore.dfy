/** The audit store behind the Temporal driver: instance rows and step traces,
    every write guarded by a compare-and-swap on the current step (or, for the
    cancel and failure marks, on a live status). */
module WorkflowStore {
  import opened Wrappers

  datatype Kind = Callback | Collections

  datatype Status = Running | WaitingTimer | Completed | Failed | Canceled

  datatype Step = Scheduled | Contacted | Waited | Escalated | TaskCreated | Closed

  datatype Instance = Instance(
    tenantId: string,
    kind: Kind,
    status: Status,
    currentStep: Step,
    nextRunAt: Option<int>,
    error: string)

  /** An instance row with the steps recorded for it, oldest first. */
  datatype Audit = Audit(inst: Instance, trace: seq<Step>)

  datatype NextStep = NextStep(step: Step, runAt: int)

  /** One store activity as Temporal delivers it. */
  datatype Write =
    | RecordStep(prev: Step, doneStep: Step, next: Option<NextStep>)
    | Complete(prev: Step)
    | MarkCanceled
    | MarkFailed(error: string)

  datatype Message = Message(id: string, tenantId: string, write: Write)

  /** The two implementations of the store. They differ in one field: without a
      next step Postgres clears next_run_at and the memory store keeps it. */
  datatype Backend = Memory | Postgres

  predicate Live(s: Status) {
    s.Running? || s.WaitingTimer?
  }

  /** Whether a write passes its guard. */
  predicate Passes(a: Audit, w: Write) {
    match w
    case RecordStep(prev, _, _) => a.inst.currentStep == prev
    case Complete(prev) => a.inst.currentStep == prev
    case MarkCanceled => Live(a.inst.status)
    case MarkFailed(_) => Live(a.inst.status)
  }

  function Write1(b: Backend, a: Audit, w: Write): Audit {
    if !Passes(a, w) then a
    else
      match w
      case RecordStep(_, doneStep, Some(next)) =>
        Audit(a.inst.(status := WaitingTimer, currentStep := next.step, nextRunAt := Some(next.runAt)),
              a.trace + [doneStep])
      case RecordStep(_, doneStep, None) =>
        Audit(a.inst.(status := Running, currentStep := doneStep,
                      nextRunAt := if b.Postgres? then None else a.inst.nextRunAt),
              a.trace + [doneStep])
      case Complete(_) =>
        Audit(a.inst.(status := Completed, currentStep := Closed, nextRunAt := None), a.trace + [Closed])
      case MarkCanceled => a.(inst := a.inst.(status := Canceled, nextRunAt := None))
      case MarkFailed(error) => a.(inst := a.inst.(status := Failed, error := error))
  }

  type Rows = map<string, Audit>

  /** Writes address one tenant-scoped row; an unknown or foreign id is a no-op. */
  function Deliver(b: Backend, rows: Rows, m: Message): Rows {
    if m.id in rows && rows[m.id].inst.tenantId == m.tenantId
    then rows[m.id := Write1(b, rows[m.id], m.write)]
    else rows
  }

  function DeliverAll(b: Backend, rows: Rows, ms: seq<Message>): Rows
    decreases |ms|
  {
    if ms == [] then rows else DeliverAll(b, Deliver(b, rows, ms[0]), ms[1..])
  }

  lemma {:induction false} DeliverConcat(b: Backend, rows: Rows, xs: seq<Message>, ys: seq<Message>)
    ensures DeliverAll(b, rows, xs + ys) == DeliverAll(b, DeliverAll(b, rows, xs), ys)
    decreases |xs|
  {
    if xs == [] {
      assert xs + ys == ys;
    } else {
      assert (xs + ys)[0] == xs[0] && (xs + ys)[1..] == xs[1..] + ys;
      DeliverConcat(b, Deliver(b, rows, xs[0]), xs[1..], ys);
    }
  }

  /** A message delivered n times in a row. */
  function Copies(m: Message, n: nat): seq<Message> {
    seq(n, _ => m)
  }

  function Started(inst: Instance): Audit {
    Audit(inst, [inst.currentStep])
  }

  class Store {
    const backend: Backend
    var rows: Rows

    constructor (b: Backend)
      ensures backend == b && rows == map[]
    {
      backend := b;
      rows := map[];
    }

    method StartInstance(id: string, inst: Instance) returns (conflict: bool)
      modifies this
      ensures conflict <==> id in old(rows)
      ensures rows == if conflict then old(rows) else old(rows)[id := Started(inst)]
    {
      if id in rows { return true; }
      rows := rows[id := Audit(inst, [inst.currentStep])];
      return false;
    }

    method RecordStep(id: string, tenantId: string, prev: Step, doneStep: Step, next: Option<NextStep>)
      modifies this
      ensures rows == Deliver(backend, old(rows), Message(id, tenantId, Write.RecordStep(prev, doneStep, next)))
    {
      if id !in rows || rows[id].inst.tenantId != tenantId || rows[id].inst.currentStep != prev {
        return;
      }
      var inst := rows[id].inst;
      if next.Some? {
        inst := inst.(status := WaitingTimer, currentStep := next.value.step, nextRunAt := Some(next.value.runAt));
      } else {
        inst := inst.(status := Running, currentStep := doneStep);
        if backend.Postgres? {
          inst := inst.(nextRunAt := None);
        }
      }
      rows := rows[id := Audit(inst, rows[id].trace + [doneStep])];
    }

    method CompleteInstance(id: string, tenantId: string, prev: Step)
      modifies this
      ensures rows == Deliver(backend, old(rows), Message(id, tenantId, Complete(prev)))
    {
      if id !in rows || rows[id].inst.tenantId != tenantId || rows[id].inst.currentStep != prev {
        return;
      }
      var inst := rows[id].inst.(status := Completed, currentStep := Closed, nextRunAt := None);
      rows := rows[id := Audit(inst, rows[id].trace + [Closed])];
    }

    method MarkCanceled(id: string, tenantId: string)
      modifies this
      ensures rows == Deliver(backend, old(rows), Message(id, tenantId, Write.MarkCanceled))
    {
      if id !in rows || rows[id].inst.tenantId != tenantId { return; }
      if rows[id].inst.status == Running || rows[id].inst.status == WaitingTimer {
        rows := rows[id := rows[id].(inst := rows[id].inst.(status := Canceled, nextRunAt := None))];
      }
    }

    method MarkFailed(id: string, tenantId: string, error: string)
      modifies this
      ensures rows == Deliver(backend, old(rows), Message(id, tenantId, Write.MarkFailed(error)))
    {
      if id !in rows || rows[id].inst.tenantId != tenantId { return; }
      if rows[id].inst.status == Running || rows[id].inst.status == WaitingTimer {
        rows := rows[id := rows[id].(inst := rows[id].inst.(status := Failed, error := error))];
      }
    }

    /** Runs one activity as Temporal retries it: any number of times. */
    method Redeliver(m: Message, runs: nat)
      modifies this
      ensures rows == DeliverAll(backend, old(rows), Copies(m, runs))
    {
      ghost var copies := Copies(m, 0);
      for i := 0 to runs
        invariant copies == Copies(m, i)
        invariant rows == DeliverAll(backend, old(rows), copies)
      {
        ghost var before := rows;
        match m.write {
          case RecordStep(prev, doneStep, next) => RecordStep(m.id, m.tenantId, prev, doneStep, next);
          case Complete(prev) => CompleteInstance(m.id, m.tenantId, prev);
          case MarkCanceled => MarkCanceled(m.id, m.tenantId);
          case MarkFailed(error) => MarkFailed(m.id, m.tenantId, error);
        }
        DeliverConcat(backend, old(rows), copies, [m]);
        assert [m][1..] == [];
        assert DeliverAll(backend, before, [m]) == Deliver(backend, before, m);
        copies := copies + [m];
        assert copies == Copies(m, i + 1);
      }
    }
  }
}
