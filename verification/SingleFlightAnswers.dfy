/** What callers are told, against what the carrier did, and how little the table
    forgets. */
module SingleFlightAnswers {
  import opened SendTable
  import opened SendTableEviction
  import opened SingleFlight
  import opened SingleFlightSafety
  import opened Wrappers

  // ---- every answer has a carrier round of its own ----

  /** The call was told, or is about to be told, how its own round ended. */
  predicate Answered(p: Phase, taken: bool) {
    if taken then p.Committing? || p == Done(Sent) else p.Releasing? || p == Done(Failed)
  }

  ghost function Answers(senders: seq<Sender>, id: string, taken: bool): nat {
    if senders == [] then 0
    else
      var x := senders[|senders| - 1];
      Answers(senders[..|senders| - 1], id, taken) + if x.id == id && Answered(x.phase, taken) then 1 else 0
  }

  predicate EndsSo(e: Event, id: string, taken: bool) {
    if taken then e.CarrierAccepted? && e.id == id else e == RoundFailed(id)
  }

  ghost function Endings(log: seq<Event>, id: string, taken: bool): nat {
    if log == [] then 0
    else Endings(log[..|log| - 1], id, taken) + if EndsSo(log[|log| - 1], id, taken) then 1 else 0
  }

  lemma EndingsSnoc(log: seq<Event>, e: Event, id: string, taken: bool)
    ensures Endings(log + [e], id, taken) == Endings(log, id, taken) + if EndsSo(e, id, taken) then 1 else 0
  {
    assert (log + [e])[..|log|] == log;
  }

  lemma {:induction false} AnswersMoved(senders: seq<Sender>, k: nat, p: Phase, id: string, taken: bool)
    requires k < |senders|
    ensures
      var x := senders[k];
      Answers(senders[k := x.(phase := p)], id, taken) + (if x.id == id && Answered(x.phase, taken) then 1 else 0)
      == Answers(senders, id, taken) + (if x.id == id && Answered(p, taken) then 1 else 0)
    decreases |senders|
  {
    var n := |senders| - 1;
    var after := senders[k := senders[k].(phase := p)];
    if k == n {
      assert after[..n] == senders[..n];
    } else {
      assert after[..n] == senders[..n][k := senders[k].(phase := p)];
      AnswersMoved(senders[..n], k, p, id, taken);
    }
  }

  ghost predicate MatchedIn(senders: seq<Sender>, log: seq<Event>, id: string, taken: bool) {
    Answers(senders, id, taken) == Endings(log, id, taken)
  }

  ghost predicate Matched(s: State, id: string, taken: bool) {
    MatchedIn(s.senders, s.log, id, taken)
  }

  function Movement(senders: seq<Sender>, k: nat, p: Phase): seq<Sender>
    requires k < |senders|
  {
    senders[k := senders[k].(phase := p)]
  }

  /** A move that changes no answer. */
  lemma MoveMatches(senders: seq<Sender>, log: seq<Event>, k: nat, p: Phase, id: string, taken: bool)
    requires k < |senders| && MatchedIn(senders, log, id, taken)
    requires Answered(senders[k].phase, taken) == Answered(p, taken)
    ensures MatchedIn(Movement(senders, k, p), log, id, taken)
  {
    AnswersMoved(senders, k, p, id, taken);
  }

  /** A round ends and its owner moves on to answer so. */
  lemma EndMatches(senders: seq<Sender>, log: seq<Event>, k: nat, p: Phase, e: Event, id: string, taken: bool)
    requires k < |senders| && MatchedIn(senders, log, id, taken) && senders[k].phase.Posting?
    requires EndsSo(e, id, taken) <==> senders[k].id == id && Answered(p, taken)
    ensures MatchedIn(Movement(senders, k, p), log + [e], id, taken)
  {
    AnswersMoved(senders, k, p, id, taken);
    EndingsSnoc(log, e, id, taken);
  }

  /** Events that end no round. */
  lemma QuietMatches(senders: seq<Sender>, log: seq<Event>, x: Event, y: Event, id: string, taken: bool)
    requires MatchedIn(senders, log, id, taken) && x.Began? && y.Forgot?
    ensures MatchedIn(senders, log + [x, y], id, taken)
  {
    EndingsSnoc(log, x, id, taken);
    EndingsSnoc(log + [x], y, id, taken);
    assert log + [x] + [y] == log + [x, y];
  }

  lemma CallMatches(senders: seq<Sender>, log: seq<Event>, x: Sender, id: string, taken: bool)
    requires MatchedIn(senders, log, id, taken) && x.phase.Looping?
    ensures MatchedIn(senders + [x], log, id, taken)
  {
    assert (senders + [x])[..|senders|] == senders;
  }

  lemma StepMatches(s: State, a: Action, id: string, taken: bool)
    requires Matched(s, id, taken) && Enabled(s, a)
    ensures Matched(Apply(s, a), id, taken)
  {
    match a {
      case Call(x, tenantId) => CallMatches(s.senders, s.log, Sender(x, tenantId, Looping), id, taken);
      case Reserve(k) => ReserveMatches(s, k, id, taken);
      case Accept(k, messageId) =>
        EndMatches(s.senders, s.log, k, Committing(s.senders[k].phase.slot),
                   CarrierAccepted(s.senders[k].id, messageId), id, taken);
      case Reject(k) =>
        EndMatches(s.senders, s.log, k, Releasing(s.senders[k].phase.slot), RoundFailed(s.senders[k].id), id, taken);
      case CloseDone(k) =>
        MoveMatches(s.senders, s.log, k, Done(if s.senders[k].phase.Committing? then Sent else Failed), id, taken);
      case Wake(k) => WakeMatches(s, k, id, taken);
      case TimeOut(k) => MoveMatches(s.senders, s.log, k, Done(TimedOut), id, taken);
    }
  }

  lemma WakeMatches(s: State, k: nat, id: string, taken: bool)
    requires Matched(s, id, taken) && Enabled(s, Wake(k))
    ensures Matched(DoWake(s, k), id, taken)
  {
    var p := DoWake(s, k).senders[k].phase;
    MoveMatches(s.senders, s.log, k, p, id, taken);
  }

  lemma ReserveMatches(s: State, k: nat, id: string, taken: bool)
    requires Matched(s, id, taken) && Enabled(s, Reserve(k))
    ensures Matched(DoReserve(s, k), id, taken)
  {
    var x := s.senders[k];
    if x.id in s.table.slots {
      MoveMatches(s.senders, s.log, k, Blocked(s.table.slots[x.id]), id, taken);
    } else {
      var forgot := Forgot(s.table.slots.Keys - Reserved(s.table, x.id).slots.Keys);
      MoveMatches(s.senders, s.log, k, Posting(|s.table.cells|), id, taken);
      QuietMatches(Movement(s.senders, k, Posting(|s.table.cells|)), s.log, Began(x.id), forgot, id, taken);
    }
  }

  lemma {:induction false} RunMatches(s: State, acts: seq<Action>, t: State, id: string, taken: bool)
    requires Matched(s, id, taken) && Reaches(s, acts, t)
    ensures Matched(t, id, taken)
    decreases |acts|
  {
    if acts != [] {
      StepMatches(s, acts[0], id, taken);
      RunMatches(Apply(s, acts[0]), acts[1..], t, id, taken);
    }
  }

  /** In every run and for every interaction, the calls told of a failure, or about
      to be, number exactly the carrier rounds that failed, and the calls told of
      an acceptance exactly the rounds the carrier accepted. So a call fails only
      by a round of its own, and a waiter never inherits another call's failure. */
  lemma AnswersMatchRounds(cap: nat, acts: seq<Action>, s: State, id: string)
    requires Reaches(Init(cap), acts, s)
    ensures Answers(s.senders, id, false) == Endings(s.log, id, false)
    ensures Answers(s.senders, id, true) == Endings(s.log, id, true)
  {
    RunMatches(Init(cap), acts, s, id, false);
    RunMatches(Init(cap), acts, s, id, true);
  }

  // ---- what a waiter wakes up to ----

  /** A slot that ended without a record belongs to a round that failed. */
  ghost predicate FailuresLogged(s: State) {
    && |s.owner| == |s.table.cells|
    && (forall c | 0 <= c < |s.owner| && s.table.cells[c].closed && s.table.cells[c].rec.None? ::
          RoundFailed(s.owner[c]) in s.log)
    && (forall k | 0 <= k < |s.senders| && s.senders[k].phase.Releasing? :: RoundFailed(s.senders[k].id) in s.log)
  }

  /** What is logged stays logged; cells that end are the only new business. */
  lemma KeepsFailures(s: State, t: State)
    requires FailuresLogged(s) && |t.owner| == |t.table.cells| && s.owner <= t.owner && s.log <= t.log
    requires forall c | 0 <= c < |t.owner| && t.table.cells[c].closed && t.table.cells[c].rec.None? ::
               (c < |s.owner| && s.table.cells[c] == t.table.cells[c]) || RoundFailed(t.owner[c]) in t.log
    requires forall k | 0 <= k < |t.senders| && t.senders[k].phase.Releasing? ::
               (k < |s.senders| && s.senders[k] == t.senders[k]) || RoundFailed(t.senders[k].id) in t.log
    ensures FailuresLogged(t)
  {
    forall e | e in s.log ensures e in t.log {}
  }

  lemma StepLogsFailures(s: State, a: Action)
    requires Inv(s) && FailuresLogged(s) && Enabled(s, a)
    ensures FailuresLogged(Apply(s, a))
  {
    match a {
      case Reserve(k) =>
        EvictedCells(s, k);
        KeepsFailures(s, DoReserve(s, k));
      case Accept(k, messageId) => AcceptLogsFailures(s, k, messageId);
      case Reject(k) => KeepsFailures(s, DoReject(s, k));
      case CloseDone(k) => CloseLogsFailures(s, k);
      case _ => KeepsFailures(s, Apply(s, a));
    }
  }

  lemma AcceptLogsFailures(s: State, k: nat, messageId: string)
    requires FailuresLogged(s) && Senders(s) && Enabled(s, Accept(k, messageId))
    ensures FailuresLogged(DoAccept(s, k, messageId))
  {
    assert SenderOk(s.table, s.owner, s.senders[k]);
    KeepsFailures(s, DoAccept(s, k, messageId));
  }

  lemma CloseLogsFailures(s: State, k: nat)
    requires FailuresLogged(s) && Senders(s) && Enabled(s, CloseDone(k))
    ensures FailuresLogged(DoClose(s, k))
  {
    assert SenderOk(s.table, s.owner, s.senders[k]);
    KeepsFailures(s, DoClose(s, k));
  }

  lemma EvictedCells(s: State, k: nat)
    requires Inv(s) && Enabled(s, Reserve(k))
    ensures
      var t := DoReserve(s, k);
      t.table.cells == if s.senders[k].id in s.table.slots then s.table.cells else s.table.cells + [Slot(None, false)]
    ensures s.log <= DoReserve(s, k).log
  {
    ReserveCoherent(s.table, s.senders[k].id);
  }

  lemma {:induction false} RunLogsFailures(s: State, acts: seq<Action>, t: State)
    requires Inv(s) && FailuresLogged(s) && Reaches(s, acts, t)
    ensures Inv(t) && FailuresLogged(t)
    decreases |acts|
  {
    if acts != [] {
      StepKeepsInv(s, acts[0]);
      StepLogsFailures(s, acts[0]);
      RunLogsFailures(Apply(s, acts[0]), acts[1..], t);
    }
  }

  /** A waiter whose slot was accepted wakes up suppressed, and the carrier did
      accept that interaction; otherwise a round of that interaction failed, and the
      waiter loops, free to reserve for itself at once. */
  lemma WakeRetriesOrSuppresses(cap: nat, acts: seq<Action>, s: State, k: nat)
    requires Reaches(Init(cap), acts, s) && Enabled(s, Wake(k))
    ensures
      var t := Apply(s, Wake(k));
      var x := t.senders[k];
      if s.table.cells[s.senders[k].phase.slot].rec.Some?
      then x.phase == Done(Suppressed) && x.id in EverAccepted(s.log)
      else x.phase == Looping && RoundFailed(x.id) in s.log && Enabled(t, Reserve(k))
  {
    InitInv(cap);
    RunLogsFailures(Init(cap), acts, s);
    assert SenderOk(s.table, s.owner, s.senders[k]);
  }

  // ---- whose record a slot holds ----

  ghost predicate Attributed(s: State, rec: Record) {
    exists k :: 0 <= k < |s.senders| && s.senders[k].id == rec.interactionId
                && s.senders[k].tenantId == rec.tenantId && Answered(s.senders[k].phase, true)
  }

  ghost predicate AllAttributed(s: State) {
    forall c | 0 <= c < |s.table.cells| && s.table.cells[c].rec.Some? :: Attributed(s, s.table.cells[c].rec.value)
  }

  lemma AttributedStays(s: State, a: Action, rec: Record)
    requires Enabled(s, a) && Attributed(s, rec)
    ensures Attributed(Apply(s, a), rec)
  {
    var k :| 0 <= k < |s.senders| && s.senders[k].id == rec.interactionId
             && s.senders[k].tenantId == rec.tenantId && Answered(s.senders[k].phase, true);
    var t := Apply(s, a);
    assert t.senders[k].id == rec.interactionId && t.senders[k].tenantId == rec.tenantId;
  }

  lemma StepAttributes(s: State, a: Action)
    requires Inv(s) && AllAttributed(s) && Enabled(s, a)
    ensures AllAttributed(Apply(s, a))
  {
    var t := Apply(s, a);
    if a.Reserve? { EvictedCells(s, a.k); }
    forall c | 0 <= c < |t.table.cells| && t.table.cells[c].rec.Some?
      ensures Attributed(t, t.table.cells[c].rec.value)
    {
      if c < |s.table.cells| && s.table.cells[c].rec == t.table.cells[c].rec {
        AttributedStays(s, a, s.table.cells[c].rec.value);
      } else if a.Accept? {
        assert t.senders[a.k].id == s.senders[a.k].id && t.senders[a.k].tenantId == s.senders[a.k].tenantId;
      }
    }
  }

  lemma {:induction false} RunAttributes(s: State, acts: seq<Action>, t: State)
    requires Inv(s) && AllAttributed(s) && Reaches(s, acts, t)
    ensures AllAttributed(t)
    decreases |acts|
  {
    if acts != [] {
      StepKeepsInv(s, acts[0]);
      StepAttributes(s, acts[0]);
      RunAttributes(Apply(s, acts[0]), acts[1..], t);
    }
  }

  /** The record a delivery report finds names the interaction and the tenant of a
      call whose round the carrier accepted. */
  lemma RecordsAreAttributed(cap: nat, acts: seq<Action>, s: State, id: string, rec: Record)
    requires Reaches(Init(cap), acts, s) && InRange(s.table) && Retains(s.table, id, rec)
    ensures Attributed(s, rec)
  {
    InitInv(cap);
    RunAttributes(Init(cap), acts, s);
  }

  // ---- how little is forgotten ----

  ghost function Rounds(log: seq<Event>): nat {
    if log == [] then 0 else Rounds(log[..|log| - 1]) + if log[|log| - 1].Began? then 1 else 0
  }

  ghost function ForgottenIn(log: seq<Event>): nat {
    if log == [] then 0
    else ForgottenIn(log[..|log| - 1]) + if log[|log| - 1].Forgot? then |log[|log| - 1].ids| else 0
  }

  lemma CountsSnoc(log: seq<Event>, e: Event)
    ensures Rounds(log + [e]) == Rounds(log) + if e.Began? then 1 else 0
    ensures ForgottenIn(log + [e]) == ForgottenIn(log) + if e.Forgot? then |e.ids| else 0
  {
    assert (log + [e])[..|log|] == log;
  }

  /** Every round adds one entry to the order; what left the order bounds what was
      forgotten; and the order is never cut below the cap. */
  ghost predicate RoomyIn(order: nat, log: seq<Event>, cap: nat) {
    && ForgottenIn(log) + order <= Rounds(log)
    && (order >= cap || order == Rounds(log))
  }

  ghost predicate Roomy(s: State, cap: nat) {
    s.table.cap == cap && RoomyIn(|s.table.order|, s.log, cap)
  }

  lemma RoundRoomy(order: nat, after: nat, log: seq<Event>, x: Event, y: Event, cap: nat)
    requires RoomyIn(order, log, cap) && x.Began? && y.Forgot?
    requires |y.ids| <= order + 1 - after && (after >= cap || after == order + 1)
    ensures RoomyIn(after, log + [x, y], cap)
  {
    CountsSnoc(log, x);
    CountsSnoc(log + [x], y);
    assert log + [x] + [y] == log + [x, y];
  }

  lemma ReserveRoomy(s: State, k: nat, cap: nat)
    requires Valid(s.table) && Roomy(s, cap) && Enabled(s, Reserve(k))
    ensures Roomy(DoReserve(s, k), cap)
  {
    var t, id := s.table, s.senders[k].id;
    if id !in t.slots {
      var r := Reserved(t, id);
      ReserveForgetsFew(t, id);
      ReserveCoherent(t, id);
      RoundRoomy(|t.order|, |r.order|, s.log, Began(id), Forgot(t.slots.Keys - r.slots.Keys), cap);
    }
  }

  lemma StepRoomy(s: State, a: Action, cap: nat)
    requires Valid(s.table) && Roomy(s, cap) && Enabled(s, a)
    ensures Roomy(Apply(s, a), cap)
  {
    match a {
      case Reserve(k) => ReserveRoomy(s, k, cap);
      case Accept(k, messageId) => CountsSnoc(s.log, CarrierAccepted(s.senders[k].id, messageId));
      case Reject(k) => CountsSnoc(s.log, RoundFailed(s.senders[k].id));
      case _ =>
    }
  }

  lemma {:induction false} RunRoomy(s: State, acts: seq<Action>, t: State, cap: nat)
    requires Inv(s) && Roomy(s, cap) && Reaches(s, acts, t)
    ensures Roomy(t, cap)
    decreases |acts|
  {
    if acts != [] {
      StepKeepsInv(s, acts[0]);
      StepRoomy(s, acts[0], cap);
      RunRoomy(Apply(s, acts[0]), acts[1..], t, cap);
    }
  }

  lemma {:induction false} NothingForgotten(log: seq<Event>, id: string)
    requires ForgottenIn(log) == 0 && id in EverAccepted(log)
    ensures id in Remembered(log)
  {
    var n := |log| - 1;
    if id in EverAccepted(log[..n]) {
      NothingForgotten(log[..n], id);
      if log[n].Forgot? { assert log[n].ids == {}; }
    }
  }

  /** Over a whole run the table forgets at most as many sends as there were carrier
      rounds beyond its cap; while there were no more rounds than that, every
      accepted send is still known, and so is not billed again. */
  lemma ForgetsOnlyBeyondCap(cap: nat, acts: seq<Action>, s: State, id: string)
    requires Reaches(Init(cap), acts, s)
    ensures ForgottenIn(s.log) <= if Rounds(s.log) > cap then Rounds(s.log) - cap else 0
    ensures Rounds(s.log) <= cap && id in EverAccepted(s.log) ==> id in s.table.slots && id in Remembered(s.log)
  {
    InitInv(cap);
    RunRoomy(Init(cap), acts, s, cap);
    RunKeepsInv(Init(cap), acts, s);
    if Rounds(s.log) <= cap && id in EverAccepted(s.log) { NothingForgotten(s.log, id); }
  }
}
