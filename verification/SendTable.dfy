/** The bounded idempotency table of the SMS adapter: interaction id to
    single-flight slot, plus an index from carrier message id to send record.

    A slot pointer is a handle into `cells`; a waiter may hold a handle long
    after the table forgot the slot. */
module SendTable {
  import opened Lists
  import opened Wrappers

  datatype Record = Record(interactionId: string, tenantId: string, messageId: string)

  /** One reservation: the record once the carrier accepted, and whether the
      done channel is closed. */
  datatype Slot = Slot(rec: Option<Record>, closed: bool)

  datatype Table = Table(
    cap: nat,
    order: seq<string>,
    slots: map<string, nat>,
    cells: seq<Slot>,
    byMsg: map<string, Record>)

  ghost predicate Valid(t: Table) {
    && (forall id | id in t.slots :: t.slots[id] < |t.cells|)
    && (forall a, b | a in t.slots && b in t.slots && a != b :: t.slots[a] != t.slots[b])
    && (forall id | id in t.slots :: id in t.order)
  }

  predicate InRange(t: Table) {
    forall id | id in t.slots :: t.slots[id] < |t.cells|
  }

  /** An entry of the eviction order that may be dropped: its slot is gone (a
      stale entry left by a release) or finished. */
  predicate Forgettable(t: Table, id: string)
    requires InRange(t)
  {
    id !in t.slots || t.cells[t.slots[id]].closed
  }

  predicate Open(t: Table, id: string)
    requires InRange(t)
  {
    id in t.slots && !t.cells[t.slots[id]].closed
  }

  function Forget(t: Table, id: string): (r: Table)
    requires InRange(t)
    ensures InRange(r)
  {
    if id !in t.slots then t
    else
      var rec := t.cells[t.slots[id]].rec;
      t.(slots := t.slots - {id},
         byMsg := if rec.Some? && rec.value.messageId != "" then t.byMsg - {rec.value.messageId} else t.byMsg)
  }

  /** The eviction scan: `t.order` is what was kept so far, `rest` what is left
      to look at, `overflow` how many entries may still be dropped. */
  function EvictScan(t: Table, rest: seq<string>, overflow: nat): (r: Table)
    requires InRange(t)
    ensures InRange(r)
    decreases |rest|
  {
    if rest == [] then t
    else if overflow > 0 && Forgettable(t, rest[0]) then
      EvictScan(Forget(t, rest[0]), rest[1..], overflow - 1)
    else
      EvictScan(t.(order := t.order + [rest[0]]), rest[1..], overflow)
  }

  function Evicted(t: Table): Table
    requires InRange(t)
  {
    if |t.order| <= t.cap then t
    else EvictScan(t.(order := []), t.order, |t.order| - t.cap)
  }

  /** The table after a fresh reservation, before eviction. */
  function WithFresh(t: Table, id: string): Table {
    t.(slots := t.slots[id := |t.cells|], order := t.order + [id],
       cells := t.cells + [Slot(None, false)])
  }

  function Reserved(t: Table, id: string): Table
    requires InRange(t)
  {
    if id in t.slots then t else Evicted(WithFresh(t, id))
  }

  /** The critical section of commit: the slot's channel is closed afterwards. */
  function Recorded(t: Table, slot: nat, rec: Record): Table
    requires slot < |t.cells|
  {
    t.(cells := t.cells[slot := t.cells[slot].(rec := Some(rec))],
       byMsg := if rec.messageId != "" then t.byMsg[rec.messageId := rec] else t.byMsg)
  }

  /** The critical section of release. */
  function Dropped(t: Table, id: string, slot: nat): Table {
    if id in t.slots && t.slots[id] == slot then t.(slots := t.slots - {id}) else t
  }

  function Closed(t: Table, slot: nat): Table
    requires slot < |t.cells|
  {
    t.(cells := t.cells[slot := t.cells[slot].(closed := true)])
  }

  /** The adapter's table, updated in place under its mutex. */
  class Sends {
    var cap: nat
    var order: seq<string>
    var slots: map<string, nat>
    var cells: seq<Slot>
    var byMsg: map<string, Record>

    ghost function View(): Table
      reads this
    {
      Table(cap, order, slots, cells, byMsg)
    }

    constructor (capacity: int)
      ensures View() == Table(if capacity <= 0 then 65536 else capacity, [], map[], [], map[])
    {
      cap := if capacity <= 0 then 65536 else capacity;
      order, slots, cells, byMsg := [], map[], [], map[];
    }

    method Reserve(id: string) returns (slot: nat, isNew: bool)
      requires InRange(View())
      modifies this
      ensures View() == Reserved(old(View()), id)
      ensures isNew <==> id !in old(slots)
      ensures slot == if isNew then |old(cells)| else old(slots)[id]
    {
      if id in slots {
        return slots[id], false;
      }
      slot, isNew := |cells|, true;
      slots := slots[id := slot];
      order := order + [id];
      cells := cells + [Slot(None, false)];
      EvictLocked();
    }

    method EvictLocked()
      requires InRange(View())
      modifies this
      ensures View() == Evicted(old(View()))
    {
      var overflow := |order| - cap;
      if overflow <= 0 {
        return;
      }
      ghost var result := Evicted(View());
      var all := order;
      order := [];
      assert all[0..] == all;
      for i := 0 to |all|
        invariant InRange(View()) && overflow >= 0
        invariant EvictScan(View(), all[i..], overflow) == result
      {
        var id := all[i];
        assert all[i..][0] == id && all[i..][1..] == all[i + 1..];
        if overflow > 0 && (id !in slots || cells[slots[id]].closed) {
          if id in slots {
            var rec := cells[slots[id]].rec;
            if rec.Some? && rec.value.messageId != "" {
              byMsg := byMsg - {rec.value.messageId};
            }
            slots := slots - {id};
          }
          overflow := overflow - 1;
        } else {
          order := order + [id];
        }
      }
    }

    method Commit(slot: nat, rec: Record)
      requires slot < |cells|
      modifies this
      ensures View() == Closed(Recorded(old(View()), slot, rec), slot)
    {
      cells := cells[slot := cells[slot].(rec := Some(rec))];
      if rec.messageId != "" {
        byMsg := byMsg[rec.messageId := rec];
      }
      cells := cells[slot := cells[slot].(closed := true)];
    }

    method Release(id: string, slot: nat)
      requires slot < |cells|
      modifies this
      ensures View() == Closed(Dropped(old(View()), id, slot), slot)
    {
      if id in slots && slots[id] == slot {
        slots := slots - {id};
      }
      cells := cells[slot := cells[slot].(closed := true)];
    }

    /** A delivery report finds the accepted send the table retains under the
        carrier's id, if there is one, as long as the index is exact. */
    method ByMessage(messageId: string) returns (found: Option<Record>)
      requires InRange(View())
      ensures Indexed(View()) ==>
                forall rec :: found == Some(rec) <==>
                  rec.messageId == messageId && exists id :: Retains(View(), id, rec)
      ensures found.Some? <==> messageId in byMsg
      ensures found.Some? ==> found.value == byMsg[messageId]
    {
      if messageId in byMsg { return Some(byMsg[messageId]); }
      return None;
    }
  }

  // ---- eviction ----

  /** r is what a scan of `t` leaves: no unfinished send is forgotten, no slot is
      re-pointed, and every remaining key is among the kept entries. */
  ghost predicate Scanned(t: Table, r: Table)
    requires InRange(t)
  {
    && r.cap == t.cap && r.cells == t.cells
    && (forall id | id in r.slots :: id in t.slots && r.slots[id] == t.slots[id])
    && (forall id | id in t.slots && Open(t, id) :: id in r.slots)
    && (forall id | id in r.slots :: id in r.order)
  }

  /** What one scan keeps, whatever stale or duplicate entries it meets. */
  lemma {:induction false} ScanKeeps(t: Table, rest: seq<string>, overflow: nat)
    requires InRange(t)
    requires forall id | id in t.slots :: id in t.order || id in rest
    ensures
      var r := EvictScan(t, rest, overflow);
      && Scanned(t, r) && |t.order| <= |r.order|
      && (forall i | 0 <= i < |t.order| :: r.order[i] == t.order[i])
    decreases |rest|
  {
    if rest != [] {
      var id := rest[0];
      if overflow > 0 && Forgettable(t, id) {
        ScanKeeps(Forget(t, id), rest[1..], overflow - 1);
      } else {
        ScanKeeps(t.(order := t.order + [id]), rest[1..], overflow);
      }
    }
  }

  /** From position `from` on the order names unfinished sends only. */
  predicate OpenFrom(t: Table, from: nat)
    requires InRange(t)
  {
    forall i | from <= i < |t.order| :: Open(t, t.order[i])
  }

  predicate DropsOverflow(r: Table, entries: nat, overflow: nat, kept: nat)
    requires InRange(r)
  {
    |r.order| == entries - overflow || (overflow > 0 && OpenFrom(r, kept))
  }

  /** A scan drops its whole overflow, or keeps nothing but unfinished sends. */
  lemma {:induction false} ScanBound(t: Table, rest: seq<string>, overflow: nat)
    requires InRange(t)
    requires forall id | id in t.slots :: id in t.order || id in rest
    ensures DropsOverflow(EvictScan(t, rest, overflow), |t.order| + |rest|, overflow, |t.order|)
    decreases |rest|
  {
    if rest != [] {
      var id := rest[0];
      var r := EvictScan(t, rest, overflow);
      if overflow > 0 && Forgettable(t, id) {
        var next := Forget(t, id);
        assert next.order == t.order && r == EvictScan(next, rest[1..], overflow - 1);
        ScanBound(next, rest[1..], overflow - 1);
      } else {
        var kept := t.(order := t.order + [id]);
        assert r == EvictScan(kept, rest[1..], overflow);
        ScanBound(kept, rest[1..], overflow);
        ScanKeeps(kept, rest[1..], overflow);
        assert r.order[|t.order|] == kept.order[|t.order|] == id;
        assert overflow > 0 ==> Open(kept, id) && Open(r, id);
      }
    }
  }

  function OpenKeys(t: Table): set<string>
    requires InRange(t)
  {
    set id | id in t.slots && Open(t, id)
  }

  /** r is t with some finished sends forgotten, and perhaps a new one. */
  ghost predicate Narrows(t: Table, r: Table, id: string)
    requires InRange(t)
  {
    && Valid(r) && r.cap == t.cap
    && (forall k | k in r.slots :: (k == id && k !in t.slots) || (k in t.slots && r.slots[k] == t.slots[k]))
    && (forall k | k in t.slots && Open(t, k) :: k in r.slots && r.slots[k] == t.slots[k])
    && (id !in t.slots ==> id in r.slots && r.slots[id] == |t.cells|)
    && r.cells == (if id in t.slots then t.cells else t.cells + [Slot(None, false)])
  }

  lemma FreshNarrows(t: Table, id: string)
    requires Valid(t) && id !in t.slots
    ensures Narrows(t, WithFresh(t, id), id) && Open(WithFresh(t, id), id)
  {
  }

  lemma ScanNarrows(t: Table, w: Table, r: Table, id: string)
    requires InRange(t) && id !in t.slots && Narrows(t, w, id) && Open(w, id) && Scanned(w, r)
    ensures Narrows(t, r, id)
  {
  }

  lemma EvictedScanned(w: Table)
    requires Valid(w)
    ensures Scanned(w, Evicted(w))
  {
    if |w.order| > w.cap {
      var empty := w.(order := []);
      ScanKeeps(empty, w.order, |w.order| - w.cap);
      SameScan(w, empty, Evicted(w));
    }
  }

  lemma SameScan(w: Table, empty: Table, r: Table)
    requires InRange(w) && empty == w.(order := []) && Scanned(empty, r)
    ensures Scanned(w, r)
  {
    assert forall id | id in w.slots && Open(w, id) :: Open(empty, id);
  }

  /** A reserve keeps the table coherent: every slot key stays in the FIFO
      order, unfinished sends keep their slot, and nothing is re-pointed. */
  lemma ReserveCoherent(t: Table, id: string)
    requires Valid(t)
    ensures Narrows(t, Reserved(t, id), id)
  {
    if id !in t.slots {
      FreshNarrows(t, id);
      EvictedScanned(WithFresh(t, id));
      ScanNarrows(t, WithFresh(t, id), Reserved(t, id), id);
    }
  }

  predicate Within(r: Table, cap: nat)
    requires InRange(r)
  {
    |r.slots| <= cap || (|r.slots| == |OpenKeys(r)| && forall k | k in r.slots :: Open(r, k))
  }

  lemma WithinByOrder(r: Table, cap: nat)
    requires Valid(r) && (|r.order| <= cap || OpenFrom(r, 0))
    ensures Within(r, cap)
  {
    if |r.order| <= cap {
      KeysFit(r.slots.Keys, r.order);
    } else {
      forall k | k in r.slots ensures Open(r, k) {
        var i :| 0 <= i < |r.order| && r.order[i] == k;
      }
      assert r.slots.Keys == OpenKeys(r);
    }
  }

  lemma EvictedBound(w: Table)
    requires Valid(w)
    ensures |Evicted(w).order| <= w.cap || OpenFrom(Evicted(w), 0)
  {
    if |w.order| > w.cap { ScanBound(w.(order := []), w.order, |w.order| - w.cap); }
  }

  /** After a fresh reserve the table is within its cap, or every slot in it
      belongs to an unfinished send. */
  lemma ReserveBounded(t: Table, id: string)
    requires Valid(t) && id !in t.slots
    ensures Within(Reserved(t, id), t.cap)
  {
    FreshNarrows(t, id);
    EvictedBound(WithFresh(t, id));
    ReserveCoherent(t, id);
    WithinByOrder(Reserved(t, id), t.cap);
  }

  // ---- the carrier message index ----

  ghost predicate Retains(t: Table, id: string, rec: Record)
    requires InRange(t)
  {
    id in t.slots && t.cells[t.slots[id]].rec == Some(rec) && rec.messageId != ""
  }

  /** No two retained sends carry the same non-empty carrier message id. */
  ghost predicate DistinctIds(t: Table)
    requires InRange(t)
  {
    forall a, b, ra, rb | Retains(t, a, ra) && Retains(t, b, rb) && ra.messageId == rb.messageId :: a == b
  }

  /** The index holds exactly the retained committed sends. */
  ghost predicate Indexed(t: Table)
    requires InRange(t)
  {
    && (forall id, rec | Retains(t, id, rec) :: rec.messageId in t.byMsg && t.byMsg[rec.messageId] == rec)
    && (forall m | m in t.byMsg :: m == t.byMsg[m].messageId && exists id :: Retains(t, id, t.byMsg[m]))
  }

  lemma ForgetIndexed(t: Table, id: string)
    requires InRange(t) && DistinctIds(t) && Indexed(t)
    ensures DistinctIds(Forget(t, id)) && Indexed(Forget(t, id))
  {
    var r := Forget(t, id);
    if id in t.slots {
      assert forall k, rec :: Retains(r, k, rec) <==> k != id && Retains(t, k, rec);
      var gone := t.cells[t.slots[id]].rec;
      forall k, rec | Retains(r, k, rec)
        ensures rec.messageId in r.byMsg && r.byMsg[rec.messageId] == rec
      {
        assert Retains(t, k, rec);
        assert gone.Some? && gone.value.messageId != "" ==> Retains(t, id, gone.value);
      }
      forall m | m in r.byMsg
        ensures m == r.byMsg[m].messageId && exists k :: Retains(r, k, r.byMsg[m])
      {
        var k :| Retains(t, k, t.byMsg[m]);
        assert k != id;
        assert Retains(r, k, r.byMsg[m]);
      }
    }
  }

  lemma {:induction false} ScanIndexed(t: Table, rest: seq<string>, overflow: nat)
    requires InRange(t) && DistinctIds(t) && Indexed(t)
    ensures DistinctIds(EvictScan(t, rest, overflow)) && Indexed(EvictScan(t, rest, overflow))
    decreases |rest|
  {
    if rest != [] {
      if overflow > 0 && Forgettable(t, rest[0]) {
        ForgetIndexed(t, rest[0]);
        ScanIndexed(Forget(t, rest[0]), rest[1..], overflow - 1);
      } else {
        var kept := t.(order := t.order + [rest[0]]);
        SameSends(t, kept);
        ScanIndexed(kept, rest[1..], overflow);
      }
    }
  }

  /** Index coherence depends on the retained sends and the index only. */
  lemma SameSends(t: Table, r: Table)
    requires InRange(t) && InRange(r) && DistinctIds(t) && Indexed(t)
    requires r.byMsg == t.byMsg
    requires forall id, rec :: Retains(r, id, rec) <==> Retains(t, id, rec)
    ensures DistinctIds(r) && Indexed(r)
  {
  }

  lemma ReserveIndexed(t: Table, id: string)
    requires InRange(t) && DistinctIds(t) && Indexed(t)
    ensures DistinctIds(Reserved(t, id)) && Indexed(Reserved(t, id))
  {
    if id !in t.slots {
      var w := WithFresh(t, id);
      SameSends(t, w);
      if |w.order| > w.cap {
        SameSends(w, w.(order := []));
        ScanIndexed(w.(order := []), w.order, |w.order| - w.cap);
      }
    }
  }

  lemma RecordRetains(t: Table, id: string, slot: nat, rec: Record, k: string, x: Record)
    requires Valid(t) && id in t.slots && t.slots[id] == slot && t.cells[slot].rec == None
    ensures Retains(Recorded(t, slot, rec), k, x) <==>
            (k == id && x == rec && rec.messageId != "") || Retains(t, k, x)
  {
  }

  /** Committing a send whose carrier id is new keeps the index exact. */
  lemma RecordIndexed(t: Table, id: string, slot: nat, rec: Record)
    requires Valid(t) && DistinctIds(t) && Indexed(t)
    requires id in t.slots && t.slots[id] == slot && t.cells[slot].rec == None
    requires forall k, other | Retains(t, k, other) :: other.messageId != rec.messageId
    ensures DistinctIds(Recorded(t, slot, rec)) && Indexed(Recorded(t, slot, rec))
  {
    var r := Recorded(t, slot, rec);
    forall a, b, ra, rb | Retains(r, a, ra) && Retains(r, b, rb) && ra.messageId == rb.messageId
      ensures a == b
    {
      RecordRetains(t, id, slot, rec, a, ra);
      RecordRetains(t, id, slot, rec, b, rb);
    }
    forall k, x | Retains(r, k, x)
      ensures x.messageId in r.byMsg && r.byMsg[x.messageId] == x
    {
      RecordRetains(t, id, slot, rec, k, x);
    }
    forall m | m in r.byMsg
      ensures m == r.byMsg[m].messageId && exists k :: Retains(r, k, r.byMsg[m])
    {
      if m == rec.messageId {
        RecordRetains(t, id, slot, rec, id, rec);
      } else {
        var k :| Retains(t, k, t.byMsg[m]);
        RecordRetains(t, id, slot, rec, k, t.byMsg[m]);
      }
    }
  }

  /** Releasing a failed send, or closing a channel, leaves the index alone. */
  lemma ReleaseIndexed(t: Table, id: string, slot: nat)
    requires Valid(t) && DistinctIds(t) && Indexed(t)
    requires slot < |t.cells| && t.cells[slot].rec == None
    ensures DistinctIds(Dropped(t, id, slot)) && Indexed(Dropped(t, id, slot))
  {
    SameSends(t, Dropped(t, id, slot));
  }

  lemma CloseIndexed(t: Table, slot: nat)
    requires InRange(t) && slot < |t.cells| && DistinctIds(t) && Indexed(t)
    ensures DistinctIds(Closed(t, slot)) && Indexed(Closed(t, slot))
  {
    SameSends(t, Closed(t, slot));
  }

  /** When the carrier reuses a message id, forgetting one of two retained sends
      that share it also drops the index entry of the other. */
  lemma SharedIdLosesIndex(t: Table, a: string, b: string, ra: Record, rb: Record)
    requires InRange(t) && a != b && Retains(t, a, ra) && Retains(t, b, rb) && ra.messageId == rb.messageId
    ensures Retains(Forget(t, a), b, rb) && rb.messageId !in Forget(t, a).byMsg && !Indexed(Forget(t, a))
  {
    assert Retains(Forget(t, a), b, rb);
  }

  /** So forgetting keeps an exact index exact, whichever send is forgotten, if and
      only if no two retained sends share a carrier id. */
  lemma IndexSurvivesIffDistinct(t: Table)
    requires InRange(t) && Indexed(t)
    ensures DistinctIds(t) <==> forall id :: Indexed(Forget(t, id))
  {
    if DistinctIds(t) {
      forall id ensures Indexed(Forget(t, id)) { ForgetIndexed(t, id); }
    } else {
      var a, b, ra, rb :| Retains(t, a, ra) && Retains(t, b, rb) && ra.messageId == rb.messageId && a != b;
      SharedIdLosesIndex(t, a, b, ra, rb);
    }
  }
}
