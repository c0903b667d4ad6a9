/** What becomes of an instance, in every field, under arbitrary traffic: the rung it
    stands on, and the first cancel or failure mark that met it there. */
module WorkflowMarks {
  import opened WorkflowLadder
  import opened WorkflowStore
  import opened Wrappers

  /** The writes of a message list that reach the instance. */
  function Own(ms: seq<Message>, id: string, tenantId: string): seq<Write> {
    if ms == [] then []
    else
      Own(ms[..|ms| - 1], id, tenantId) + OwnOf(ms[|ms| - 1], id, tenantId)
  }

  function OwnOf(m: Message, id: string, tenantId: string): seq<Write> {
    if m.id == id && m.tenantId == tenantId then [m.write] else []
  }

  predicate IsMark(w: Write) {
    w.MarkCanceled? || w.MarkFailed?
  }

  /** On rung n the write takes the instance one rung up. */
  predicate Climbs(k: Kind, n: nat, w: Write) {
    1 <= n < |Ladder(k)| && !IsMark(w) && w.prev == Chain(k)[n - 1]
  }

  function RungAfter(k: Kind, n: nat, ws: seq<Write>): nat {
    if ws == [] then n
    else
      var before := RungAfter(k, n, ws[..|ws| - 1]);
      if Climbs(k, before, ws[|ws| - 1]) then before + 1 else before
  }

  /** Number i is the first mark that met the instance on the rung it is on now. */
  predicate FirstMarkAt(k: Kind, n: nat, ws: seq<Write>, i: int) {
    && 0 <= i < |ws| && IsMark(ws[i]) && RungAfter(k, n, ws[..i]) == RungAfter(k, n, ws) < |Ladder(k)|
    && forall j | 0 <= j < i && IsMark(ws[j]) :: RungAfter(k, n, ws[..j]) < RungAfter(k, n, ws)
  }

  /** Rungs up to and including the third of a collections run, and the first of a
      callback, wait for a timer. */
  function RestingStatus(k: Kind, n: nat): Status {
    if n >= |Ladder(k)| then Completed
    else if n <= (if k.Callback? then 1 else 3) then WaitingTimer
    else Running
  }

  /** An instance nobody has marked on the rung it is on. */
  predicate Unmarked(a: Audit, n: nat) {
    Climbed(a, n) && a.inst.status == RestingStatus(a.inst.kind, n)
  }

  // ---- one write at a time ----

  /** The rung, the mark that holds on it, the failure reason and the next run time. */
  datatype Fate = Fate(rung: nat, mark: Option<Write>, error: string, runAt: Option<int>)

  /** The run time a climbing write leaves: the one it carries; none when the run is
      sealed; without either, the memory store keeps what it had. */
  function RunAtAfter(b: Backend, w: Write, before: Option<int>): Option<int> {
    if w.RecordStep? then
      if w.next.Some? then Some(w.next.value.runAt) else if b.Postgres? then None else before
    else None
  }

  function FateAfter(b: Backend, k: Kind, f: Fate, ws: seq<Write>): Fate {
    if ws == [] then f
    else
      var g, w := FateAfter(b, k, f, ws[..|ws| - 1]), ws[|ws| - 1];
      if Climbs(k, g.rung, w) then Fate(g.rung + 1, None, g.error, RunAtAfter(b, w, g.runAt))
      else if IsMark(w) && g.mark.None? && g.rung < |Ladder(k)| then
        Fate(g.rung, Some(w), if w.MarkFailed? then w.error else g.error, if w.MarkCanceled? then None else g.runAt)
      else g
  }

  function MarkedStatus(k: Kind, f: Fate): Status {
    match f.mark
    case None => RestingStatus(k, f.rung)
    case Some(w) => if w.MarkCanceled? then Canceled else Failed
  }

  predicate Meets(a: Audit, f: Fate) {
    && Climbed(a, f.rung) && a.inst.status == MarkedStatus(a.inst.kind, f)
    && a.inst.error == f.error && a.inst.nextRunAt == f.runAt
    && (f.mark.Some? ==> IsMark(f.mark.value) && f.rung < |Ladder(a.inst.kind)|)
  }

  lemma WriteMeets(b: Backend, a: Audit, f: Fate, w: Write)
    requires Meets(a, f) && Emits(a.inst.kind, w)
    ensures Meets(Write1(b, a, w), FateAfter(b, a.inst.kind, f, [w]))
    ensures Write1(b, a, w).inst.kind == a.inst.kind && Write1(b, a, w).inst.tenantId == a.inst.tenantId
  {
    WriteClimbs(b, a, w, f.rung);
    assert [w][..0] == [];
  }

  lemma FateSnoc(b: Backend, k: Kind, f: Fate, ws: seq<Write>, w: Write)
    ensures FateAfter(b, k, f, ws + [w]) == FateAfter(b, k, FateAfter(b, k, f, ws), [w])
  {
    assert (ws + [w])[..|ws|] == ws && [w][..0] == [];
  }

  lemma MessageMeets(b: Backend, rows: Rows, m: Message, id: string, f: Fate, ws: seq<Write>)
    requires id in rows && Meets(rows[id], FateAfter(b, rows[id].inst.kind, f, ws))
    requires m.id == id && m.tenantId == rows[id].inst.tenantId ==> Emits(rows[id].inst.kind, m.write)
    ensures
      var (a, after) := (rows[id].inst, Deliver(b, rows, m));
      && id in after && after[id].inst.kind == a.kind && after[id].inst.tenantId == a.tenantId
      && Meets(after[id], FateAfter(b, a.kind, f, ws + OwnOf(m, id, a.tenantId)))
  {
    var a := rows[id].inst;
    if OwnOf(m, id, a.tenantId) == [] {
      assert ws + [] == ws;
    } else {
      WriteMeets(b, rows[id], FateAfter(b, a.kind, f, ws), m.write);
      FateSnoc(b, a.kind, f, ws, m.write);
    }
  }

  lemma DeliverSnoc(b: Backend, rows: Rows, ms: seq<Message>)
    requires ms != []
    ensures DeliverAll(b, rows, ms) == Deliver(b, DeliverAll(b, rows, ms[..|ms| - 1]), ms[|ms| - 1])
  {
    var (before, m) := (ms[..|ms| - 1], ms[|ms| - 1]);
    assert ms == before + [m] && [m][1..] == [];
    DeliverConcat(b, rows, before, [m]);
    assert DeliverAll(b, DeliverAll(b, rows, before), [m]) == Deliver(b, DeliverAll(b, rows, before), m);
  }

  /** The reference tells the whole row, whatever is delivered in whatever order. */
  lemma {:induction false} TrafficMeets(b: Backend, rows: Rows, ms: seq<Message>, id: string, f: Fate)
    requires id in rows && Meets(rows[id], f)
    requires Traffic(ms, id, rows[id].inst.tenantId, rows[id].inst.kind)
    ensures
      var (a, after) := (rows[id].inst, DeliverAll(b, rows, ms));
      && id in after && after[id].inst.kind == a.kind && after[id].inst.tenantId == a.tenantId
      && Meets(after[id], FateAfter(b, a.kind, f, Own(ms, id, a.tenantId)))
    decreases |ms|
  {
    if ms != [] {
      var n := |ms| - 1;
      assert forall m | m in ms[..n] :: m in ms;
      TrafficMeets(b, rows, ms[..n], id, f);
      DeliverSnoc(b, rows, ms);
      MessageMeets(b, DeliverAll(b, rows, ms[..n]), ms[n], id, f, Own(ms[..n], id, rows[id].inst.tenantId));
    }
  }

  // ---- the mark that holds is the first one on the rung ----

  lemma {:induction false} RungRises(k: Kind, n: nat, ws: seq<Write>, i: nat)
    requires i <= |ws|
    ensures RungAfter(k, n, ws[..i]) <= RungAfter(k, n, ws)
    decreases |ws| - i
  {
    if i == |ws| {
      assert ws[..i] == ws;
    } else {
      assert ws[..i + 1][..i] == ws[..i];
      RungRises(k, n, ws, i + 1);
    }
  }

  lemma {:induction false} RungOfFate(b: Backend, k: Kind, f: Fate, ws: seq<Write>)
    ensures FateAfter(b, k, f, ws).rung == RungAfter(k, f.rung, ws)
  {
    if ws != [] { RungOfFate(b, k, f, ws[..|ws| - 1]); }
  }

  ghost predicate Holds(k: Kind, f: Fate, ws: seq<Write>, m: Option<Write>) {
    if m.None? then
      forall i | 0 <= i < |ws| && IsMark(ws[i]) ::
        RungAfter(k, f.rung, ws[..i]) < RungAfter(k, f.rung, ws) || RungAfter(k, f.rung, ws) >= |Ladder(k)|
    else exists i :: FirstMarkAt(k, f.rung, ws, i) && ws[i] == m.value
  }

  lemma Prefixes(k: Kind, n: nat, ws: seq<Write>, w: Write)
    ensures forall i | 0 <= i <= |ws| :: RungAfter(k, n, (ws + [w])[..i]) == RungAfter(k, n, ws[..i])
    ensures RungAfter(k, n, ws + [w]) ==
            if Climbs(k, RungAfter(k, n, ws), w) then RungAfter(k, n, ws) + 1 else RungAfter(k, n, ws)
    ensures forall i | 0 <= i <= |ws| :: RungAfter(k, n, ws[..i]) <= RungAfter(k, n, ws)
  {
    assert forall i | 0 <= i <= |ws| :: (ws + [w])[..i] == ws[..i];
    forall i | 0 <= i <= |ws| ensures RungAfter(k, n, ws[..i]) <= RungAfter(k, n, ws) { RungRises(k, n, ws, i); }
  }

  lemma HoldsSnoc(b: Backend, k: Kind, f: Fate, ws: seq<Write>, w: Write)
    requires Holds(k, f, ws, FateAfter(b, k, f, ws).mark)
    ensures Holds(k, f, ws + [w], FateAfter(b, k, f, ws + [w]).mark)
  {
    var all := ws + [w];
    var g := FateAfter(b, k, f, ws);
    assert all[..|ws|] == ws;
    Prefixes(k, f.rung, ws, w);
    RungOfFate(b, k, f, ws);
    if Climbs(k, g.rung, w) {
    } else if IsMark(w) && g.mark.None? && g.rung < |Ladder(k)| {
      assert FirstMarkAt(k, f.rung, all, |ws|);
    } else if g.mark.Some? {
      var i :| FirstMarkAt(k, f.rung, ws, i) && ws[i] == g.mark.value;
      assert FirstMarkAt(k, f.rung, all, i);
    }
  }

  lemma {:induction false} MarkIsFirst(b: Backend, k: Kind, f: Fate, ws: seq<Write>)
    requires f.mark.None?
    ensures Holds(k, f, ws, FateAfter(b, k, f, ws).mark)
    decreases |ws|
  {
    if ws != [] {
      MarkIsFirst(b, k, f, ws[..|ws| - 1]);
      assert ws == ws[..|ws| - 1] + [ws[|ws| - 1]];
      HoldsSnoc(b, k, f, ws[..|ws| - 1], ws[|ws| - 1]);
    }
  }

  lemma OneFirstMark(k: Kind, n: nat, ws: seq<Write>, i: int, j: int)
    requires FirstMarkAt(k, n, ws, i) && FirstMarkAt(k, n, ws, j)
    ensures i == j
  {
  }

  /** An instance that was live ends up canceled if and only if the first mark since
      its last climbed rung was a cancel, and failed if and only if it was a failure;
      then it carries that failure's reason, and a canceled one no next run time.
      Otherwise it has the status its rung gives it. Only failures change the reason. */
  lemma FirstMarkDecides(b: Backend, rows: Rows, ms: seq<Message>, id: string, n: nat)
    requires id in rows && Unmarked(rows[id], n)
    requires Traffic(ms, id, rows[id].inst.tenantId, rows[id].inst.kind)
    ensures id in DeliverAll(b, rows, ms)
    ensures
      var ws := Own(ms, id, rows[id].inst.tenantId);
      var k := rows[id].inst.kind;
      var inst := DeliverAll(b, rows, ms)[id].inst;
      && (inst.status == Canceled <==> exists i :: FirstMarkAt(k, n, ws, i) && ws[i].MarkCanceled?)
      && (inst.status == Failed <==> exists i :: FirstMarkAt(k, n, ws, i) && ws[i].MarkFailed?)
      && (forall i | FirstMarkAt(k, n, ws, i) && ws[i].MarkFailed? :: inst.error == ws[i].error)
      && (inst.status == Canceled ==> inst.nextRunAt == None)
      && ((forall w | w in ws :: !w.MarkFailed?) ==> inst.error == rows[id].inst.error)
      && (inst.status != Canceled && inst.status != Failed ==> inst.status == RestingStatus(k, RungAfter(k, n, ws)))
  {
    var a := rows[id];
    var f := Fate(n, None, a.inst.error, a.inst.nextRunAt);
    var ws := Own(ms, id, a.inst.tenantId);
    TrafficMeets(b, rows, ms, id, f);
    var g := FateAfter(b, a.inst.kind, f, ws);
    MarkIsFirst(b, a.inst.kind, f, ws);
    RungOfFate(b, a.inst.kind, f, ws);
    MarkFields(b, a.inst.kind, f, ws);
    if forall w | w in ws :: !w.MarkFailed? { ReasonKept(b, a.inst.kind, f, ws); }
    forall i, j | FirstMarkAt(a.inst.kind, n, ws, i) && FirstMarkAt(a.inst.kind, n, ws, j) ensures i == j {
      OneFirstMark(a.inst.kind, n, ws, i, j);
    }
  }

  /** What the mark that holds has left in the other fields. */
  lemma {:induction false} MarkFields(b: Backend, k: Kind, f: Fate, ws: seq<Write>)
    requires f.mark.None?
    ensures
      var g := FateAfter(b, k, f, ws);
      && (g.mark.Some? ==> IsMark(g.mark.value))
      && (g.mark.Some? && g.mark.value.MarkFailed? ==> g.error == g.mark.value.error)
      && (g.mark.Some? && g.mark.value.MarkCanceled? ==> g.runAt == None)
    decreases |ws|
  {
    if ws != [] { MarkFields(b, k, f, ws[..|ws| - 1]); }
  }

  /** Cancels leave the failure reason alone: without failure marks it never changes. */
  lemma {:induction false} ReasonKept(b: Backend, k: Kind, f: Fate, ws: seq<Write>)
    requires forall w | w in ws :: !w.MarkFailed?
    ensures FateAfter(b, k, f, ws).error == f.error
    decreases |ws|
  {
    if ws != [] {
      assert forall w | w in ws[..|ws| - 1] :: w in ws;
      ReasonKept(b, k, f, ws[..|ws| - 1]);
    }
  }
}
