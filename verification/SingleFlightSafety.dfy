/** What concurrent sends keep, whatever the interleaving: one carrier round per
    interaction at a time, no second round after an acceptance the table still
    remembers, and a message index that is exactly the retained sends. */
module SingleFlightSafety {
  import opened SendTable
  import opened SingleFlight
  import opened Wrappers

  // ---- steps that leave the table alone ----

  /** A sender that owns no slot may move to any phase that is fine by itself. */
  lemma IdleMoveKeepsInv(s: State, k: nat, p: Phase)
    requires Inv(s) && k < |s.senders| && !Owns(s.senders[k].phase) && !Owns(p)
    requires SenderOk(s.table, s.owner, s.senders[k].(phase := p))
    requires p == Done(Sent) || p == Done(Suppressed) ==> s.senders[k].id in EverAccepted(s.log)
    ensures Inv(Moved(s, k, p))
  {
    var t := Moved(s, k, p);
    forall c | 0 <= c < |t.table.cells| && !t.table.cells[c].closed
      ensures exists i :: 0 <= i < |t.senders| && Owns(t.senders[i].phase) && t.senders[i].phase.slot == c
    {
      var i :| 0 <= i < |s.senders| && Owns(s.senders[i].phase) && s.senders[i].phase.slot == c;
      assert t.senders[i] == s.senders[i];
    }
  }

  lemma CallKeepsInv(s: State, id: string, tenantId: string)
    requires Inv(s)
    ensures Inv(Apply(s, Call(id, tenantId)))
  {
    var t := Apply(s, Call(id, tenantId));
    forall c | 0 <= c < |t.table.cells| && !t.table.cells[c].closed
      ensures exists i :: 0 <= i < |t.senders| && Owns(t.senders[i].phase) && t.senders[i].phase.slot == c
    {
      var i :| 0 <= i < |s.senders| && Owns(s.senders[i].phase) && s.senders[i].phase.slot == c;
      assert t.senders[i] == s.senders[i];
    }
  }

  lemma WakeKeepsInv(s: State, k: nat)
    requires Inv(s) && Enabled(s, Wake(k))
    ensures Inv(DoWake(s, k))
  {
    var p := if s.table.cells[s.senders[k].phase.slot].rec.Some? then Done(Suppressed) else Looping;
    IdleMoveKeepsInv(s, k, p);
  }

  // ---- reserving ----

  lemma ReserveCells(s: State, k: nat)
    requires Inv(s) && Enabled(s, Reserve(k)) && s.senders[k].id !in s.table.slots
    ensures Cells(DoReserve(s, k))
  {
    var id := s.senders[k].id;
    var t := Reserved(s.table, id);
    ReserveCoherent(s.table, id);
    assert Narrows(s.table, t, id);
    var owner := s.owner + [id];
    forall x | x in t.slots
      ensures owner[t.slots[x]] == x
      ensures t.cells[t.slots[x]].closed ==> t.cells[t.slots[x]].rec.Some?
    {
      if x in s.table.slots { assert t.slots[x] == s.table.slots[x]; }
    }
  }

  /** The phases of the other senders survive a reserve. */
  lemma OthersUnmoved(t: Table, r: Table, owner: seq<string>, id: string, x: Sender)
    requires Valid(t) && |owner| == |t.cells| && id !in t.slots && Narrows(t, r, id)
    requires SenderOk(t, owner, x)
    ensures SenderOk(r, owner + [id], x)
  {
    if x.phase.Posting? || x.phase.Committing? { assert Open(t, x.id); }
  }

  lemma ReserveSenders(s: State, k: nat)
    requires Inv(s) && Enabled(s, Reserve(k)) && s.senders[k].id !in s.table.slots
    requires Cells(DoReserve(s, k))
    ensures Senders(DoReserve(s, k))
  {
    var id := s.senders[k].id;
    var t := Reserved(s.table, id);
    var s' := DoReserve(s, k);
    ReserveCoherent(s.table, id);
    forall i | 0 <= i < |s'.senders|
      ensures SenderOk(t, s'.owner, s'.senders[i])
    {
      if i != k { OthersUnmoved(s.table, t, s.owner, id, s.senders[i]); }
    }
    forall i | 0 <= i < |s'.senders| && i != k && Owns(s'.senders[i].phase)
      ensures s'.senders[i].phase.slot < |s.table.cells|
    {
      assert SenderOk(s.table, s.owner, s.senders[i]);
    }
  }

  lemma ReserveAttended(s: State, k: nat)
    requires Inv(s) && Enabled(s, Reserve(k)) && s.senders[k].id !in s.table.slots
    ensures Attended(DoReserve(s, k))
  {
    var id := s.senders[k].id;
    var s' := DoReserve(s, k);
    ReserveCoherent(s.table, id);
    forall c | 0 <= c < |s'.table.cells| && !s'.table.cells[c].closed
      ensures exists i :: 0 <= i < |s'.senders| && Owns(s'.senders[i].phase) && s'.senders[i].phase.slot == c
    {
      if c == |s.table.cells| {
        assert s'.senders[k].phase.slot == c;
      } else {
        var i :| 0 <= i < |s.senders| && Owns(s.senders[i].phase) && s.senders[i].phase.slot == c;
        assert s'.senders[i] == s.senders[i];
      }
    }
  }

  lemma ReserveLogged(s: State, k: nat)
    requires Inv(s) && Enabled(s, Reserve(k)) && s.senders[k].id !in s.table.slots
    requires Cells(DoReserve(s, k))
    ensures Logged(DoReserve(s, k))
  {
    var id := s.senders[k].id;
    var t := Reserved(s.table, id);
    ReserveCoherent(s.table, id);
    assert Narrows(s.table, t, id);
    var gone := s.table.slots.Keys - t.slots.Keys;
    var mid := s.log + [Began(id)];
    LogAppend(s.log, Began(id));
    WellLoggedAppend(s.log, Began(id));
    LogAppend(mid, Forgot(gone));
    WellLoggedAppend(mid, Forgot(gone));
    assert s.log + [Began(id), Forgot(gone)] == mid + [Forgot(gone)];
    forall x
      ensures x in Outstanding(mid + [Forgot(gone)]) <==> x in t.slots && t.cells[t.slots[x]].rec.None?
      ensures x in Remembered(mid + [Forgot(gone)]) <==> x in t.slots && t.cells[t.slots[x]].rec.Some?
    {
      if x in s.table.slots {
        if s.table.cells[s.table.slots[x]].rec.None? { assert Open(s.table, x); }
        if x in t.slots { assert t.slots[x] == s.table.slots[x]; }
      }
    }
  }

  lemma ReserveHonest(s: State, k: nat)
    requires Inv(s) && Enabled(s, Reserve(k)) && s.senders[k].id !in s.table.slots
    requires Cells(DoReserve(s, k))
    ensures Honest(DoReserve(s, k))
  {
    var id := s.senders[k].id;
    var t := Reserved(s.table, id);
    ReserveCoherent(s.table, id);
    var gone := s.table.slots.Keys - t.slots.Keys;
    LogAppend(s.log, Began(id));
    LogAppend(s.log + [Began(id)], Forgot(gone));
    assert s.log + [Began(id), Forgot(gone)] == s.log + [Began(id)] + [Forgot(gone)];
    HonestKept(s, DoReserve(s, k));
  }

  /** Honesty survives when no acceptance is lost and no record or success is new. */
  lemma HonestKept(s: State, t: State)
    requires |s.owner| == |s.table.cells| && |t.owner| == |t.table.cells| && Honest(s)
    requires EverAccepted(t.log) == EverAccepted(s.log)
    requires |s.owner| <= |t.owner| && t.owner[..|s.owner|] == s.owner
    requires forall c | 0 <= c < |t.owner| && t.table.cells[c].rec.Some? ::
               c < |s.owner| && s.table.cells[c].rec.Some?
    requires |t.senders| == |s.senders|
    requires forall k | 0 <= k < |t.senders| ::
               t.senders[k].id == s.senders[k].id && (t.senders[k].phase.Done? ==> t.senders[k] == s.senders[k])
    ensures Honest(t)
  {
    forall c | 0 <= c < |t.owner| && t.table.cells[c].rec.Some?
      ensures t.owner[c] in EverAccepted(t.log)
    {
      assert t.owner[..|s.owner|][c] == s.owner[c];
    }
  }

  lemma ReserveKeepsInv(s: State, k: nat)
    requires Inv(s) && Enabled(s, Reserve(k))
    ensures Inv(DoReserve(s, k))
  {
    var id := s.senders[k].id;
    if id in s.table.slots {
      IdleMoveKeepsInv(s, k, Blocked(s.table.slots[id]));
    } else {
      ReserveCells(s, k);
      ReserveSenders(s, k);
      ReserveAttended(s, k);
      ReserveLogged(s, k);
      ReserveHonest(s, k);
    }
  }

  // ---- ending a round ----

  lemma OwnerMoves(s: State, k: nat, p: Phase)
    requires Attended(s) && k < |s.senders| && Owns(s.senders[k].phase)
    requires Owns(p) && p.slot == s.senders[k].phase.slot
    ensures Attended(Moved(s, k, p))
  {
    var t := Moved(s, k, p);
    forall c | 0 <= c < |t.table.cells| && !t.table.cells[c].closed
      ensures exists i :: 0 <= i < |t.senders| && Owns(t.senders[i].phase) && t.senders[i].phase.slot == c
    {
      var i :| 0 <= i < |s.senders| && Owns(s.senders[i].phase) && s.senders[i].phase.slot == c;
      assert t.senders[i].phase.slot == c;
    }
  }

  lemma AcceptSlots(s: State, k: nat, messageId: string)
    requires Inv(s) && Enabled(s, Accept(k, messageId))
    ensures Cells(DoAccept(s, k, messageId)) && Attended(DoAccept(s, k, messageId))
  {
    assert SenderOk(s.table, s.owner, s.senders[k]);
    OwnerMoves(s, k, Committing(s.senders[k].phase.slot));
    AttendedByCells(Moved(s, k, Committing(s.senders[k].phase.slot)), DoAccept(s, k, messageId));
  }

  /** Attendance depends on the senders and on which channels are closed. */
  lemma AttendedByCells(s: State, t: State)
    requires Attended(s) && t.senders == s.senders && |t.table.cells| == |s.table.cells|
    requires forall c | 0 <= c < |t.table.cells| :: s.table.cells[c].closed ==> t.table.cells[c].closed
    ensures Attended(t)
  {
  }

  lemma AcceptSenders(s: State, k: nat, messageId: string)
    requires Cells(s) && Senders(s) && Enabled(s, Accept(k, messageId)) && Cells(DoAccept(s, k, messageId))
    ensures Senders(DoAccept(s, k, messageId))
  {
    var t := DoAccept(s, k, messageId);
    assert SenderOk(s.table, s.owner, s.senders[k]);
    forall i | 0 <= i < |t.senders|
      ensures SenderOk(t.table, t.owner, t.senders[i])
    {
      assert SenderOk(s.table, s.owner, s.senders[i]);
    }
  }

  lemma AcceptLogged(s: State, k: nat, messageId: string)
    requires Inv(s) && Enabled(s, Accept(k, messageId)) && Cells(DoAccept(s, k, messageId))
    ensures Logged(DoAccept(s, k, messageId))
  {
    var x := s.senders[k];
    assert SenderOk(s.table, s.owner, x);
    LogAppend(s.log, CarrierAccepted(x.id, messageId));
    WellLoggedAppend(s.log, CarrierAccepted(x.id, messageId));
  }

  lemma AcceptHonest(s: State, k: nat, messageId: string)
    requires Inv(s) && Enabled(s, Accept(k, messageId)) && Cells(DoAccept(s, k, messageId))
    ensures Honest(DoAccept(s, k, messageId))
  {
    var x := s.senders[k];
    assert SenderOk(s.table, s.owner, x);
    LogAppend(s.log, CarrierAccepted(x.id, messageId));
  }

  lemma AcceptKeepsInv(s: State, k: nat, messageId: string)
    requires Inv(s) && Enabled(s, Accept(k, messageId))
    ensures Inv(DoAccept(s, k, messageId))
  {
    AcceptSlots(s, k, messageId);
    AcceptSenders(s, k, messageId);
    AcceptLogged(s, k, messageId);
    AcceptHonest(s, k, messageId);
  }

  lemma RejectSlots(s: State, k: nat)
    requires Inv(s) && Enabled(s, Reject(k))
    ensures Cells(DoReject(s, k)) && Attended(DoReject(s, k))
  {
    assert SenderOk(s.table, s.owner, s.senders[k]);
    OwnerMoves(s, k, Releasing(s.senders[k].phase.slot));
    AttendedByCells(Moved(s, k, Releasing(s.senders[k].phase.slot)), DoReject(s, k));
  }

  lemma RejectSenders(s: State, k: nat)
    requires Cells(s) && Senders(s) && Enabled(s, Reject(k)) && Cells(DoReject(s, k))
    ensures Senders(DoReject(s, k))
  {
    var t := DoReject(s, k);
    assert SenderOk(s.table, s.owner, s.senders[k]);
    forall i | 0 <= i < |t.senders|
      ensures SenderOk(t.table, t.owner, t.senders[i])
    {
      assert SenderOk(s.table, s.owner, s.senders[i]);
    }
  }

  lemma RejectLogged(s: State, k: nat)
    requires Inv(s) && Enabled(s, Reject(k)) && Cells(DoReject(s, k))
    ensures Logged(DoReject(s, k)) && Honest(DoReject(s, k))
  {
    var x := s.senders[k];
    assert SenderOk(s.table, s.owner, x);
    LogAppend(s.log, RoundFailed(x.id));
    WellLoggedAppend(s.log, RoundFailed(x.id));
  }

  lemma RejectKeepsInv(s: State, k: nat)
    requires Inv(s) && Enabled(s, Reject(k))
    ensures Inv(DoReject(s, k))
  {
    RejectSlots(s, k);
    RejectSenders(s, k);
    RejectLogged(s, k);
  }

  lemma CloseSlots(s: State, k: nat)
    requires Inv(s) && Enabled(s, CloseDone(k))
    ensures Cells(DoClose(s, k)) && Attended(DoClose(s, k))
  {
    var t := DoClose(s, k);
    assert SenderOk(s.table, s.owner, s.senders[k]);
    forall c | 0 <= c < |t.table.cells| && !t.table.cells[c].closed
      ensures exists i :: 0 <= i < |t.senders| && Owns(t.senders[i].phase) && t.senders[i].phase.slot == c
    {
      var i :| 0 <= i < |s.senders| && Owns(s.senders[i].phase) && s.senders[i].phase.slot == c;
      assert i != k && t.senders[i] == s.senders[i];
    }
  }

  lemma CloseSenders(s: State, k: nat)
    requires Inv(s) && Enabled(s, CloseDone(k)) && Cells(DoClose(s, k))
    ensures Senders(DoClose(s, k))
  {
    var t := DoClose(s, k);
    forall i | 0 <= i < |t.senders|
      ensures SenderOk(t.table, t.owner, t.senders[i])
    {
      assert SenderOk(s.table, s.owner, s.senders[i]);
    }
  }

  lemma CloseLogged(s: State, k: nat)
    requires Inv(s) && Enabled(s, CloseDone(k)) && Cells(DoClose(s, k))
    ensures Logged(DoClose(s, k)) && Honest(DoClose(s, k))
  {
    assert SenderOk(s.table, s.owner, s.senders[k]);
  }

  lemma CloseKeepsInv(s: State, k: nat)
    requires Inv(s) && Enabled(s, CloseDone(k))
    ensures Inv(DoClose(s, k))
  {
    CloseSlots(s, k);
    CloseSenders(s, k);
    CloseLogged(s, k);
  }

  lemma StepKeepsInv(s: State, a: Action)
    requires Inv(s) && Enabled(s, a)
    ensures Inv(Apply(s, a))
  {
    match a
    case Call(id, tenantId) => CallKeepsInv(s, id, tenantId);
    case Reserve(k) => ReserveKeepsInv(s, k);
    case Accept(k, messageId) => AcceptKeepsInv(s, k, messageId);
    case Reject(k) => RejectKeepsInv(s, k);
    case CloseDone(k) => CloseKeepsInv(s, k);
    case Wake(k) => WakeKeepsInv(s, k);
    case TimeOut(k) => IdleMoveKeepsInv(s, k, Done(TimedOut));
  }

  lemma {:induction false} RunKeepsInv(s: State, acts: seq<Action>, t: State)
    requires Inv(s) && Reaches(s, acts, t)
    ensures Inv(t)
    decreases |acts|
  {
    if acts != [] {
      StepKeepsInv(s, acts[0]);
      RunKeepsInv(Apply(s, acts[0]), acts[1..], t);
    }
  }

  // ---- what callers and the carrier observe ----

  lemma InitInv(cap: nat)
    ensures Inv(Init(cap))
  {
  }

  /** Two calls never have a carrier round for the same interaction at once. */
  lemma OneRoundAtATime(cap: nat, acts: seq<Action>, s: State, i: nat, j: nat)
    requires Reaches(Init(cap), acts, s) && i < |s.senders| && j < |s.senders| && i != j
    requires s.senders[i].phase.Posting? && s.senders[j].phase.Posting?
    ensures s.senders[i].id != s.senders[j].id
  {
    InitInv(cap);
    RunKeepsInv(Init(cap), acts, s);
    assert SenderOk(s.table, s.owner, s.senders[i]) && SenderOk(s.table, s.owner, s.senders[j]);
  }

  /** A send is reported accepted only if the carrier accepted that interaction. */
  lemma SuccessIsReal(cap: nat, acts: seq<Action>, s: State, k: nat)
    requires Reaches(Init(cap), acts, s) && k < |s.senders|
    requires s.senders[k].phase == Done(Sent) || s.senders[k].phase == Done(Suppressed)
    ensures s.senders[k].id in EverAccepted(s.log)
  {
    InitInv(cap);
    RunKeepsInv(Init(cap), acts, s);
  }

  /** A done channel is closed once: whoever is about to close finds it open. */
  lemma NoDoubleClose(cap: nat, acts: seq<Action>, s: State, k: nat)
    requires Reaches(Init(cap), acts, s) && Enabled(s, CloseDone(k))
    ensures !s.table.cells[s.senders[k].phase.slot].closed
  {
    InitInv(cap);
    RunKeepsInv(Init(cap), acts, s);
    assert SenderOk(s.table, s.owner, s.senders[k]);
  }

  lemma OwnerHasStep(s: State, i: nat)
    requires Inv(s) && i < |s.senders| && Owns(s.senders[i].phase)
    ensures Enabled(s, Reject(i)) || Enabled(s, CloseDone(i))
  {
    assert SenderOk(s.table, s.owner, s.senders[i]);
  }

  /** No waiter is stranded: its channel is closed, or another call still owns
      the slot and has a step that leads to closing it. */
  lemma WaiterIsServed(cap: nat, acts: seq<Action>, s: State, k: nat) returns (i: nat)
    requires Reaches(Init(cap), acts, s) && k < |s.senders| && s.senders[k].phase.Blocked?
    ensures Enabled(s, Wake(k)) ||
            (i < |s.senders| && Owns(s.senders[i].phase)
             && s.senders[i].phase.slot == s.senders[k].phase.slot
             && (Enabled(s, Reject(i)) || Enabled(s, CloseDone(i))))
  {
    InitInv(cap);
    RunKeepsInv(Init(cap), acts, s);
    var c := s.senders[k].phase.slot;
    assert SenderOk(s.table, s.owner, s.senders[k]);
    i := k;
    if !s.table.cells[c].closed {
      i :| 0 <= i < |s.senders| && Owns(s.senders[i].phase) && s.senders[i].phase.slot == c;
      OwnerHasStep(s, i);
    }
  }

  predicate Ends(e: Event, id: string) {
    (e.CarrierAccepted? || e.RoundFailed?) && e.id == id
  }

  lemma {:induction false} StaysOutstanding(log: seq<Event>, i: nat, j: nat, id: string)
    requires i < j <= |log| && log[i] == Began(id)
    requires forall m | i < m < j :: !Ends(log[m], id)
    ensures id in Outstanding(log[..j])
    decreases j
  {
    assert log[..j][..j - 1] == log[..j - 1];
    if i < j - 1 { StaysOutstanding(log, i, j - 1, id); }
  }

  lemma {:induction false} StaysRemembered(log: seq<Event>, i: nat, j: nat, id: string)
    requires i < j <= |log| && log[i].CarrierAccepted? && log[i].id == id
    requires forall m | i < m < j :: !(log[m].Forgot? && id in log[m].ids)
    ensures id in Remembered(log[..j])
    decreases j
  {
    assert log[..j][..j - 1] == log[..j - 1];
    if i < j - 1 { StaysRemembered(log, i, j - 1, id); }
  }

  lemma {:induction false} StaysEnded(log: seq<Event>, i: nat, j: nat, id: string)
    requires i < j <= |log| && Ends(log[i], id)
    requires forall m | i < m < j :: log[m] != Began(id)
    ensures id !in Outstanding(log[..j])
    decreases j
  {
    assert log[..j][..j - 1] == log[..j - 1];
    if i < j - 1 { StaysEnded(log, i, j - 1, id); }
  }

  /** Between two carrier rounds of one interaction the first one ended. */
  lemma RoundsAreSerial(cap: nat, acts: seq<Action>, s: State, i: nat, j: nat, id: string)
    requires Reaches(Init(cap), acts, s)
    requires i < j < |s.log| && s.log[i] == Began(id) && s.log[j] == Began(id)
    ensures exists m :: i < m < j && Ends(s.log[m], id)
  {
    InitInv(cap);
    RunKeepsInv(Init(cap), acts, s);
    assert Legal(s.log[..j], s.log[j]);
    if forall m | i < m < j :: !Ends(s.log[m], id) {
      StaysOutstanding(s.log, i, j, id);
    }
  }

  /** A round ends at most once: two endings have a beginning between them. */
  lemma RoundEndsOnce(cap: nat, acts: seq<Action>, s: State, i: nat, j: nat, id: string)
    requires Reaches(Init(cap), acts, s)
    requires i < j < |s.log| && Ends(s.log[i], id) && Ends(s.log[j], id)
    ensures exists m :: i < m < j && s.log[m] == Began(id)
  {
    InitInv(cap);
    RunKeepsInv(Init(cap), acts, s);
    assert Legal(s.log[..j], s.log[j]);
    if forall m | i < m < j :: s.log[m] != Began(id) {
      StaysEnded(s.log, i, j, id);
    }
  }

  /** How often a round of an interaction began, and how often one ended. */
  ghost function Begun(log: seq<Event>, id: string): nat {
    if log == [] then 0 else Begun(log[..|log| - 1], id) + if log[|log| - 1] == Began(id) then 1 else 0
  }

  ghost function Ended(log: seq<Event>, id: string): nat {
    if log == [] then 0 else Ended(log[..|log| - 1], id) + if Ends(log[|log| - 1], id) then 1 else 0
  }

  lemma {:induction false} RoundsBalance(log: seq<Event>, id: string)
    requires WellLogged(log)
    ensures Begun(log, id) == Ended(log, id) + if id in Outstanding(log) then 1 else 0
    decreases |log|
  {
    if log != [] {
      var n := |log| - 1;
      assert forall j | 0 <= j < n :: log[..n][..j] == log[..j] && Legal(log[..j], log[j]);
      RoundsBalance(log[..n], id);
      assert Legal(log[..n], log[n]);
    }
  }

  /** Every round ends exactly once: at any moment each interaction has as many
      endings as beginnings, one fewer while its round is under way; and once no
      call is at work on a slot, every channel is closed and nothing is under
      way. */
  lemma RoundsEndExactlyOnce(cap: nat, acts: seq<Action>, s: State, id: string)
    requires Reaches(Init(cap), acts, s)
    ensures Begun(s.log, id) == Ended(s.log, id) + if id in Outstanding(s.log) then 1 else 0
    ensures (forall k | 0 <= k < |s.senders| :: !Owns(s.senders[k].phase)) ==>
              && (forall c | 0 <= c < |s.table.cells| :: s.table.cells[c].closed)
              && id !in Outstanding(s.log) && Begun(s.log, id) == Ended(s.log, id)
  {
    InitInv(cap);
    RunKeepsInv(Init(cap), acts, s);
    RoundsBalance(s.log, id);
  }

  /** An accepted message is not billed again unless eviction forgot it. */
  lemma NeverRebilled(cap: nat, acts: seq<Action>, s: State, i: nat, j: nat, id: string)
    requires Reaches(Init(cap), acts, s)
    requires i < j < |s.log| && s.log[i].CarrierAccepted? && s.log[i].id == id && s.log[j] == Began(id)
    ensures exists m :: i < m < j && s.log[m].Forgot? && id in s.log[m].ids
  {
    InitInv(cap);
    RunKeepsInv(Init(cap), acts, s);
    assert Legal(s.log[..j], s.log[j]);
    if forall m | i < m < j :: !(s.log[m].Forgot? && id in s.log[m].ids) {
      StaysRemembered(s.log, i, j, id);
    }
  }

  // ---- the delivery-report index ----

  /** The carrier never reuses a non-empty message id during the run. */
  ghost predicate FreshIds(log: seq<Event>) {
    forall i, j | 0 <= i < j < |log| && log[i].CarrierAccepted? && log[j].CarrierAccepted?
                  && log[i].messageId != "" :: log[i].messageId != log[j].messageId
  }

  ghost predicate LoggedIds(s: State) {
    forall c | 0 <= c < |s.table.cells| && s.table.cells[c].rec.Some? ::
      exists i :: 0 <= i < |s.log| && s.log[i] == CarrierAccepted(s.table.cells[c].rec.value.interactionId,
                                                                  s.table.cells[c].rec.value.messageId)
  }

  ghost predicate IndexInv(s: State) {
    Inv(s) && LoggedIds(s) && DistinctIds(s.table) && Indexed(s.table)
  }

  lemma LogGrows(s: State, a: Action)
    requires Enabled(s, a)
    ensures |s.log| <= |Apply(s, a).log| && Apply(s, a).log[..|s.log|] == s.log
  {
  }

  lemma StepLoggedIds(s: State, a: Action)
    requires Inv(s) && LoggedIds(s) && Enabled(s, a)
    ensures LoggedIds(Apply(s, a))
  {
    var t := Apply(s, a);
    LogGrows(s, a);
    if a.Reserve? { ReserveCoherent(s.table, s.senders[a.k].id); }
    forall c | 0 <= c < |t.table.cells| && t.table.cells[c].rec.Some?
      ensures exists i :: 0 <= i < |t.log| && t.log[i] == CarrierAccepted(t.table.cells[c].rec.value.interactionId,
                                                                          t.table.cells[c].rec.value.messageId)
    {
      if a.Accept? && c == s.senders[a.k].phase.slot {
        assert t.log[|s.log|] == CarrierAccepted(s.senders[a.k].id, a.messageId);
      } else {
        assert t.table.cells[c].rec == s.table.cells[c].rec;
        var i :| 0 <= i < |s.log| && s.log[i] == CarrierAccepted(s.table.cells[c].rec.value.interactionId,
                                                                 s.table.cells[c].rec.value.messageId);
        assert t.log[i] == s.log[i];
      }
    }
  }

  lemma AcceptIndexed(s: State, k: nat, messageId: string)
    requires IndexInv(s) && Enabled(s, Accept(k, messageId)) && FreshIds(DoAccept(s, k, messageId).log)
    ensures DistinctIds(DoAccept(s, k, messageId).table) && Indexed(DoAccept(s, k, messageId).table)
  {
    var x := s.senders[k];
    var slot := x.phase.slot;
    var log := DoAccept(s, k, messageId).log;
    assert SenderOk(s.table, s.owner, x);
    forall o, other | Retains(s.table, o, other)
      ensures other.messageId != messageId
    {
      var i :| 0 <= i < |s.log| && s.log[i] == CarrierAccepted(other.interactionId, other.messageId);
      assert log[i] == s.log[i] && log[|s.log|] == CarrierAccepted(x.id, messageId);
    }
    RecordIndexed(s.table, x.id, slot, Record(x.id, x.tenantId, messageId));
  }

  lemma StepIndexed(s: State, a: Action)
    requires IndexInv(s) && Enabled(s, a) && FreshIds(Apply(s, a).log)
    ensures IndexInv(Apply(s, a))
  {
    StepKeepsInv(s, a);
    StepLoggedIds(s, a);
    match a
    case Reserve(k) => ReserveIndexed(s.table, s.senders[k].id);
    case Accept(k, messageId) => AcceptIndexed(s, k, messageId);
    case Reject(k) =>
      assert SenderOk(s.table, s.owner, s.senders[k]);
      ReleaseIndexed(s.table, s.senders[k].id, s.senders[k].phase.slot);
    case CloseDone(k) => CloseIndexed(s.table, s.senders[k].phase.slot);
    case _ =>
  }

  lemma {:induction false} RunLogPrefix(s: State, acts: seq<Action>, t: State)
    requires Reaches(s, acts, t)
    ensures |s.log| <= |t.log| && t.log[..|s.log|] == s.log
    decreases |acts|
  {
    if acts != [] {
      LogGrows(s, acts[0]);
      RunLogPrefix(Apply(s, acts[0]), acts[1..], t);
    }
  }

  lemma {:induction false} RunIndexed(s: State, acts: seq<Action>, t: State)
    requires IndexInv(s) && Reaches(s, acts, t) && FreshIds(t.log)
    ensures IndexInv(t)
    decreases |acts|
  {
    if acts != [] {
      var u := Apply(s, acts[0]);
      RunLogPrefix(u, acts[1..], t);
      forall i, j | 0 <= i < j < |u.log| && u.log[i].CarrierAccepted? && u.log[j].CarrierAccepted?
                    && u.log[i].messageId != ""
        ensures u.log[i].messageId != u.log[j].messageId
      {
        assert t.log[i] == u.log[i] && t.log[j] == u.log[j];
      }
      StepIndexed(s, acts[0]);
      RunIndexed(u, acts[1..], t);
    }
  }

  /** A delivery report finds exactly the accepted sends the table retains, when
      the carrier does not reuse message ids. */
  lemma IndexIsExact(cap: nat, acts: seq<Action>, s: State)
    requires Reaches(Init(cap), acts, s) && FreshIds(s.log)
    ensures InRange(s.table)
    ensures forall m :: m in s.table.byMsg <==> exists id, rec :: Retains(s.table, id, rec) && rec.messageId == m
    ensures forall id, rec | Retains(s.table, id, rec) :: s.table.byMsg[rec.messageId] == rec
  {
    assert IndexInv(Init(cap));
    RunIndexed(Init(cap), acts, s);
    forall m | m in s.table.byMsg
      ensures exists id, rec :: Retains(s.table, id, rec) && rec.messageId == m
    {
      var id :| Retains(s.table, id, s.table.byMsg[m]);
    }
  }
}
