/** The two workflow bodies, run against the audit store by a scheduler that may
    repeat every activity: what each run leaves in the row, sends and waits for. */
module WorkflowRuns {
  import opened WorkflowLadder
  import opened WorkflowStore
  import opened Wrappers

  const WAIT_SECOND: int := 48 * 3600
  const WAIT_THIRD: int := 72 * 3600

  /** One activity execution as the workflow sees it: how often Temporal ran it,
      and whether the workflow was told it succeeded. */
  datatype Attempt = Attempt(runs: nat, ok: bool)

  predicate Honest(a: Attempt) {
    a.ok ==> a.runs >= 1
  }

  /** What happens to a run: message queueing, the store activities, the timers
      (false means canceled while waiting), the best-effort marks, and the text of
      the error that ends an aborted run. */
  datatype Script = Script(
    queued: seq<bool>,
    steps: seq<Attempt>,
    timers: seq<bool>,
    sealed: Attempt,
    cancelMark: Attempt,
    failMark: Attempt,
    cause: string)

  predicate ScriptOk(s: Script, queues: nat, steps: nat, timers: nat) {
    |s.queued| == queues && |s.steps| == steps && |s.timers| == timers
    && Honest(s.sealed) && forall i | 0 <= i < |s.steps| :: Honest(s.steps[i])
  }

  lemma WriteTwice(b: Backend, a: Audit, w: Write)
    requires Emits(a.inst.kind, w)
    ensures Write1(b, Write1(b, a, w), w) == Write1(b, a, w)
  {
  }

  /** Copies of one write climb at most one rung, and leave what a single copy leaves. */
  lemma {:induction false} RedeliveryClimbsOnce(b: Backend, rows: Rows, m: Message, runs: nat, n: nat)
    requires m.id in rows && m.tenantId == rows[m.id].inst.tenantId && Climbed(rows[m.id], n)
    requires Emits(rows[m.id].inst.kind, m.write)
    ensures
      var after := DeliverAll(b, rows, Copies(m, runs));
      && after == (if runs >= 1 then rows[m.id := Write1(b, rows[m.id], m.write)] else rows)
      && after[m.id].inst.kind == rows[m.id].inst.kind && after[m.id].inst.tenantId == rows[m.id].inst.tenantId
      && Climbed(after[m.id], if runs >= 1 && Matches(rows[m.id], m.write) then n + 1 else n)
    decreases runs
  {
    if runs > 0 {
      var all := Copies(m, runs);
      assert all[0] == m && all[1..] == Copies(m, runs - 1);
      WriteClimbs(b, rows[m.id], m.write, n);
      WriteTwice(b, rows[m.id], m.write);
      var next := Deliver(b, rows, m);
      RedeliveryClimbsOnce(b, next, m, runs - 1, if Matches(rows[m.id], m.write) then n + 1 else n);
    }
  }

  ghost predicate At(rows: Rows, id: string, tenantId: string, k: Kind, n: nat) {
    id in rows && rows[id].inst.tenantId == tenantId && rows[id].inst.kind == k && Climbed(rows[id], n)
  }

  ghost predicate OthersKept(before: Rows, after: Rows, id: string) {
    forall x | x in before && x != id :: x in after && after[x] == before[x]
  }

  /** A canceled row: no run time, the failure reason as before. */
  predicate EndsCanceled(a: Audit, error: string) {
    a.inst.status == Canceled && a.inst.nextRunAt == None && a.inst.error == error
  }

  predicate EndsFailed(a: Audit, cause: string) {
    a.inst.status == Failed && a.inst.error == cause
  }

  method Perform(store: Store, m: Message, a: Attempt, ghost k: Kind, ghost n: nat) returns (ok: bool)
    requires At(store.rows, m.id, m.tenantId, k, n) && Emits(k, m.write)
    modifies store
    ensures ok == a.ok
    ensures At(store.rows, m.id, m.tenantId, k,
               if a.runs >= 1 && Matches(old(store.rows)[m.id], m.write) then n + 1 else n)
    ensures OthersKept(old(store.rows), store.rows, m.id)
    ensures store.rows[m.id] == if a.runs >= 1 then Write1(store.backend, old(store.rows)[m.id], m.write)
                                else old(store.rows)[m.id]
  {
    RedeliveryClimbsOnce(store.backend, store.rows, m, a.runs, n);
    store.Redeliver(m, a.runs);
    return a.ok;
  }

  /** The best-effort failure mark that ends an aborted run: a live instance it
      reaches is failed with the run's error, any other is left alone. */
  method Fail(store: Store, id: string, tenantId: string, s: Script, ghost k: Kind, ghost n: nat)
    requires At(store.rows, id, tenantId, k, n)
    modifies store
    ensures At(store.rows, id, tenantId, k, n) && OthersKept(old(store.rows), store.rows, id)
    ensures
      var was := old(store.rows)[id];
      if s.failMark.runs >= 1 && Live(was.inst.status)
      then EndsFailed(store.rows[id], s.cause) && store.rows[id].inst.nextRunAt == was.inst.nextRunAt
      else store.rows[id] == was
  {
    var ok := Perform(store, Message(id, tenantId, MarkFailed(s.cause)), s.failMark, k, n);
  }

  /** The best-effort cancel mark of an interrupted wait. */
  method RecordCanceled(store: Store, id: string, tenantId: string, mark: Attempt, ghost k: Kind, ghost n: nat)
    requires At(store.rows, id, tenantId, k, n)
    modifies store
    ensures At(store.rows, id, tenantId, k, n) && OthersKept(old(store.rows), store.rows, id)
    ensures
      var was := old(store.rows)[id];
      if mark.runs >= 1 && Live(was.inst.status)
      then EndsCanceled(store.rows[id], was.inst.error)
      else store.rows[id] == was
  {
    var ok := Perform(store, Message(id, tenantId, MarkCanceled), mark, k, n);
  }

  // ---- callback ----

  /** The rung a callback run reaches from the first. */
  function CallbackRung(s: Script): nat
    requires ScriptOk(s, 1, 1, 1)
  {
    if !s.timers[0] || !s.queued[0] || s.steps[0].runs == 0 then 1
    else if !s.steps[0].ok || s.sealed.runs == 0 then 2
    else 3
  }

  method CallbackWorkflow(store: Store, id: string, tenantId: string, s: Script)
    returns (completed: bool, sent: seq<string>)
    requires At(store.rows, id, tenantId, Callback, 1) && ScriptOk(s, 1, 1, 1)
    modifies store
    ensures At(store.rows, id, tenantId, Callback, CallbackRung(s))
    ensures completed <==> s.timers[0] && s.queued[0] && s.steps[0].ok && s.sealed.ok
    ensures completed ==> store.rows[id].inst.status == Completed && store.rows[id].trace == Ladder(Callback)
    ensures completed ==> sent == EngineSends(Callback, Scheduled)
    ensures !s.timers[0] && s.cancelMark.runs >= 1 && Live(old(store.rows)[id].inst.status)
            ==> EndsCanceled(store.rows[id], old(store.rows)[id].inst.error)
    ensures s.timers[0] && (!s.queued[0] || !s.steps[0].ok) && s.failMark.runs >= 1
            && (Live(old(store.rows)[id].inst.status) || CallbackRung(s) == 2)
            ==> EndsFailed(store.rows[id], s.cause)
    ensures OthersKept(old(store.rows), store.rows, id)
  {
    sent := [];
    if !s.timers[0] {
      RecordCanceled(store, id, tenantId, s.cancelMark, Callback, 1);
      return false, sent;
    }
    if !s.queued[0] {
      Fail(store, id, tenantId, s, Callback, 1);
      return false, sent;
    }
    sent := ["sms"];
    var write := RecordStep(Scheduled, Contacted, None);
    var ok := Perform(store, Message(id, tenantId, write), s.steps[0], Callback, 1);
    if !ok {
      Fail(store, id, tenantId, s, Callback, if s.steps[0].runs >= 1 then 2 else 1);
      return false, sent;
    }
    completed := Perform(store, Message(id, tenantId, Complete(Contacted)), s.sealed, Callback, 2);
  }

  // ---- collections ----

  /** waitStep: one recorded step that schedules the next for the end of the wait,
      then the timer. Interrupted there, the instance ends canceled. */
  method WaitStep(store: Store, id: string, tenantId: string, doneStep: Step, nextStep: Step, now: int, wait: int,
                  a: Attempt, fires: bool, cancelMark: Attempt, ghost n: nat)
    returns (ok: bool)
    requires At(store.rows, id, tenantId, Collections, n) && Honest(a) && n <= 2
    requires doneStep == Chain(Collections)[n - 1] && nextStep == Chain(Collections)[n]
    modifies store
    ensures At(store.rows, id, tenantId, Collections, if a.runs >= 1 then n + 1 else n)
    ensures ok <==> a.ok && fires
    ensures OthersKept(old(store.rows), store.rows, id)
    ensures
      var after := store.rows[id].inst;
      var error := old(store.rows)[id].inst.error;
      && (a.runs == 0 ==> store.rows[id] == old(store.rows)[id])
      && (a.ok && !fires && cancelMark.runs >= 1 ==> EndsCanceled(store.rows[id], error))
      && (a.runs >= 1 && !(a.ok && !fires && cancelMark.runs >= 1)
          ==> after.status == WaitingTimer && after.nextRunAt == Some(now + wait) && after.error == error)
  {
    var write := RecordStep(doneStep, doneStep, Some(NextStep(nextStep, now + wait)));
    ok := Perform(store, Message(id, tenantId, write), a, Collections, n);
    if ok && !fires {
      RecordCanceled(store, id, tenantId, cancelMark, Collections, n + 1);
      ok := false;
    }
  }

  /** The rung a collections run reaches from the first. */
  function CollectionsRung(s: Script): nat
    requires ScriptOk(s, 2, 3, 2)
  {
    if !s.queued[0] || s.steps[0].runs == 0 then 1
    else if !s.steps[0].ok || !s.timers[0] || !s.queued[1] || s.steps[1].runs == 0 then 2
    else if !s.steps[1].ok || !s.timers[1] || s.steps[2].runs == 0 then 3
    else if !s.steps[2].ok || s.sealed.runs == 0 then 4
    else 5
  }

  /** A timer of the run was interrupted. */
  predicate Interrupted(s: Script)
    requires ScriptOk(s, 2, 3, 2)
  {
    s.queued[0] && s.steps[0].ok
    && (!s.timers[0] || (s.queued[1] && s.steps[1].ok && !s.timers[1]))
  }

  /** Everything up to the seal went well. */
  predicate Sealing(s: Script)
    requires ScriptOk(s, 2, 3, 2)
  {
    s.queued[0] && s.steps[0].ok && s.timers[0] && s.queued[1] && s.steps[1].ok && s.timers[1] && s.steps[2].ok
  }

  /** The clock is read afresh at each wait. */
  method CollectionsWorkflow(store: Store, id: string, tenantId: string, first: int, second: int, s: Script)
    returns (completed: bool, sent: seq<string>, waited: seq<int>)
    requires At(store.rows, id, tenantId, Collections, 1) && ScriptOk(s, 2, 3, 2)
    modifies store
    ensures At(store.rows, id, tenantId, Collections, CollectionsRung(s))
    ensures completed <==> Sealing(s) && s.sealed.ok
    ensures completed ==> store.rows[id].inst.status == Completed && store.rows[id].trace == Ladder(Collections)
    ensures completed ==> sent == EngineSends(Collections, Contacted) && waited == EngineWaits(Collections, Contacted)
    ensures Interrupted(s) && s.cancelMark.runs >= 1 ==> EndsCanceled(store.rows[id], old(store.rows)[id].inst.error)
    ensures !Sealing(s) && !(Interrupted(s) && s.cancelMark.runs >= 1) && s.failMark.runs >= 1
            && (Live(old(store.rows)[id].inst.status) || CollectionsRung(s) > 1)
            ==> EndsFailed(store.rows[id], s.cause)
    ensures OthersKept(old(store.rows), store.rows, id)
  {
    sent, waited := [], [];
    if !s.queued[0] {
      Fail(store, id, tenantId, s, Collections, 1);
      return false, sent, waited;
    }
    sent := sent + ["sms"];
    var ok := WaitStep(store, id, tenantId, Contacted, Waited, first, WAIT_SECOND,
                       s.steps[0], s.timers[0], s.cancelMark, 1);
    if !ok {
      Fail(store, id, tenantId, s, Collections, if s.steps[0].runs >= 1 then 2 else 1);
      return false, sent, waited;
    }
    waited := waited + [WAIT_SECOND];
    if !s.queued[1] {
      Fail(store, id, tenantId, s, Collections, 2);
      return false, sent, waited;
    }
    sent := sent + ["whatsapp"];
    ok := WaitStep(store, id, tenantId, Waited, Escalated, second, WAIT_THIRD,
                   s.steps[1], s.timers[1], s.cancelMark, 2);
    if !ok {
      Fail(store, id, tenantId, s, Collections, if s.steps[1].runs >= 1 then 3 else 2);
      return false, sent, waited;
    }
    waited := waited + [WAIT_THIRD];
    completed := Escalate(store, id, tenantId, s);
  }

  /** The end of a collections run, after both waits. */
  method Escalate(store: Store, id: string, tenantId: string, s: Script) returns (completed: bool)
    requires At(store.rows, id, tenantId, Collections, 3) && ScriptOk(s, 2, 3, 2)
    modifies store
    ensures At(store.rows, id, tenantId, Collections,
               if s.steps[2].runs == 0 then 3 else if !s.steps[2].ok || s.sealed.runs == 0 then 4 else 5)
    ensures completed <==> s.steps[2].ok && s.sealed.ok
    ensures !s.steps[2].ok && s.failMark.runs >= 1
            && (Live(old(store.rows)[id].inst.status) || s.steps[2].runs >= 1)
            ==> EndsFailed(store.rows[id], s.cause)
    ensures OthersKept(old(store.rows), store.rows, id)
  {
    var write := RecordStep(Escalated, TaskCreated, None);
    var ok := Perform(store, Message(id, tenantId, write), s.steps[2], Collections, 3);
    if !ok {
      Fail(store, id, tenantId, s, Collections, if s.steps[2].runs >= 1 then 4 else 3);
      return false;
    }
    completed := Perform(store, Message(id, tenantId, Complete(TaskCreated)), s.sealed, Collections, 4);
  }
}
