/** What a reservation forgets, exactly: the oldest finished or stale entries of the
    order, as many as it is over the cap, and nothing else. */
module SendTableEviction {
  import opened Lists
  import opened SendTable
  import opened Wrappers

  /** The entries of a stretch of the order whose send is unfinished. */
  function OpenOnes(t: Table, q: seq<string>): seq<string>
    requires InRange(t)
  {
    if q == [] then [] else (if Forgettable(t, q[0]) then [] else [q[0]]) + OpenOnes(t, q[1..])
  }

  /** The other ones: finished sends and stale entries. */
  function ClosedOnes(t: Table, q: seq<string>): seq<string>
    requires InRange(t)
  {
    if q == [] then [] else (if Forgettable(t, q[0]) then [q[0]] else []) + ClosedOnes(t, q[1..])
  }

  lemma {:induction false} OnesSplit(t: Table, q: seq<string>)
    requires InRange(t)
    ensures |OpenOnes(t, q)| + |ClosedOnes(t, q)| == |q|
    ensures forall id | id in q && Forgettable(t, id) :: id in ClosedOnes(t, q)
  {
    if q != [] {
      OnesSplit(t, q[1..]);
      assert q == [q[0]] + q[1..];
    }
  }

  lemma {:induction false} SameOnes(t: Table, u: Table, q: seq<string>)
    requires InRange(t) && InRange(u) && forall id :: Forgettable(t, id) <==> Forgettable(u, id)
    ensures OpenOnes(t, q) == OpenOnes(u, q)
  {
    if q != [] { SameOnes(t, u, q[1..]); }
  }

  lemma {:induction false} ScanWithoutOverflow(t: Table, rest: seq<string>)
    requires InRange(t)
    ensures EvictScan(t, rest, 0) == t.(order := t.order + rest)
    decreases |rest|
  {
    if rest == [] {
      assert t.order + rest == t.order;
    } else {
      ScanWithoutOverflow(t.(order := t.order + [rest[0]]), rest[1..]);
      assert t.order + [rest[0]] + rest[1..] == t.order + rest;
    }
  }

  /** The scan drops the finished and stale entries before position k and keeps
      everything behind it; its drops use up the overflow exactly, or there was
      nothing more to drop. */
  ghost predicate DropsBefore(t: Table, r: Table, rest: seq<string>, overflow: nat, k: nat)
    requires InRange(t)
  {
    && k <= |rest| && r.cells == t.cells
    && r.order == t.order + (OpenOnes(t, rest[..k]) + rest[k..])
    && |ClosedOnes(t, rest[..k])| <= overflow
    && (|ClosedOnes(t, rest[..k])| == overflow || k == |rest|)
    && (forall id :: id in r.slots <==> id in t.slots && (Open(t, id) || id !in rest[..k]))
    && (forall id | id in r.slots :: r.slots[id] == t.slots[id])
  }

  lemma {:induction false} ScanDrops(t: Table, rest: seq<string>, overflow: nat) returns (k: nat)
    requires InRange(t)
    ensures DropsBefore(t, EvictScan(t, rest, overflow), rest, overflow, k)
    decreases |rest|
  {
    if rest == [] || overflow == 0 {
      k := 0;
      assert rest[..0] == [] && [] + rest[0..] == rest;
      if overflow == 0 { ScanWithoutOverflow(t, rest); }
    } else if Forgettable(t, rest[0]) {
      var next := Forget(t, rest[0]);
      k := ScanDrops(next, rest[1..], overflow - 1);
      DropHead(t, next, EvictScan(t, rest, overflow), rest, overflow, k);
      k := k + 1;
    } else {
      var next := t.(order := t.order + [rest[0]]);
      k := ScanDrops(next, rest[1..], overflow);
      KeepHead(t, next, EvictScan(t, rest, overflow), rest, overflow, k);
      k := k + 1;
    }
  }

  lemma {:induction false} SameClosed(t: Table, u: Table, q: seq<string>)
    requires InRange(t) && InRange(u) && forall id :: Forgettable(t, id) <==> Forgettable(u, id)
    ensures ClosedOnes(t, q) == ClosedOnes(u, q)
  {
    if q != [] { SameClosed(t, u, q[1..]); }
  }

  lemma FirstOf(rest: seq<string>, k: nat)
    requires rest != [] && k < |rest|
    ensures rest[..k + 1] == [rest[0]] + rest[1..][..k] && rest[1..][k..] == rest[k + 1..]
    ensures rest[..k + 1][1..] == rest[1..][..k]
  {
  }

  lemma Regroup(a: seq<string>, x: string, b: seq<string>, c: seq<string>)
    ensures a + [x] + (b + c) == a + (([x] + b) + c)
  {
  }

  /** Forgetting, or keeping, an entry changes nothing about which sends are open. */
  lemma SameStretch(t: Table, next: Table, q: seq<string>)
    requires InRange(t) && InRange(next) && forall id :: Forgettable(t, id) <==> Forgettable(next, id)
    ensures OpenOnes(t, q) == OpenOnes(next, q) && ClosedOnes(t, q) == ClosedOnes(next, q)
  {
    SameOnes(t, next, q);
    SameClosed(t, next, q);
  }

  lemma DropHead(t: Table, next: Table, r: Table, rest: seq<string>, overflow: nat, k: nat)
    requires InRange(t) && rest != [] && overflow > 0 && Forgettable(t, rest[0]) && next == Forget(t, rest[0])
    requires DropsBefore(next, r, rest[1..], overflow - 1, k)
    ensures DropsBefore(t, r, rest, overflow, k + 1)
  {
    FirstOf(rest, k);
    SameStretch(t, next, rest[1..][..k]);
    assert OpenOnes(t, rest[..k + 1]) == OpenOnes(t, rest[1..][..k]);
  }

  lemma KeepHead(t: Table, next: Table, r: Table, rest: seq<string>, overflow: nat, k: nat)
    requires InRange(t) && rest != [] && !Forgettable(t, rest[0]) && next == t.(order := t.order + [rest[0]])
    requires DropsBefore(next, r, rest[1..], overflow, k)
    ensures DropsBefore(t, r, rest, overflow, k + 1)
  {
    FirstOf(rest, k);
    SameStretch(t, next, rest[1..][..k]);
    Regroup(t.order, rest[0], OpenOnes(t, rest[1..][..k]), rest[k + 1..]);
    assert OpenOnes(t, rest[..k + 1]) == [rest[0]] + OpenOnes(t, rest[1..][..k]);
    assert ClosedOnes(t, rest[..k + 1]) == ClosedOnes(t, rest[1..][..k]);
  }

  function Over(w: Table): nat {
    if |w.order| > w.cap then |w.order| - w.cap else 0
  }

  /** The same for the whole eviction, which starts from an empty kept list. */
  ghost predicate EvictsBefore(w: Table, r: Table, k: nat)
    requires InRange(w)
  {
    && k <= |w.order| && r.order == OpenOnes(w, w.order[..k]) + w.order[k..]
    && |ClosedOnes(w, w.order[..k])| <= Over(w)
    && (|ClosedOnes(w, w.order[..k])| == Over(w) || k == |w.order|)
    && (forall id :: id in r.slots <==> id in w.slots && (Open(w, id) || id !in w.order[..k]))
  }

  lemma EvictedDrops(w: Table) returns (k: nat)
    requires InRange(w)
    ensures EvictsBefore(w, Evicted(w), k)
  {
    if |w.order| <= w.cap {
      k := 0;
      assert w.order[..0] == [] && [] + w.order[0..] == w.order;
    } else {
      var empty := w.(order := []);
      k := ScanDrops(empty, w.order, |w.order| - w.cap);
      FromEmpty(w, empty, Evicted(w), k);
    }
  }

  lemma FromEmpty(w: Table, empty: Table, r: Table, k: nat)
    requires InRange(w) && empty == w.(order := []) && |w.order| > w.cap
    requires DropsBefore(empty, r, w.order, |w.order| - w.cap, k)
    ensures EvictsBefore(w, r, k)
  {
    assert forall x :: Forgettable(empty, x) <==> Forgettable(w, x);
    SameOnes(w, empty, w.order[..k]);
    SameClosed(w, empty, w.order[..k]);
    assert [] + (OpenOnes(w, w.order[..k]) + w.order[k..]) == OpenOnes(w, w.order[..k]) + w.order[k..];
    assert forall id | id in w.slots :: Open(empty, id) <==> Open(w, id);
  }

  /** A reservation drops from the order only as many entries as it is over the cap,
      and they are the oldest that can be dropped: before position k only unfinished
      sends are kept, from there on everything. A send is forgotten if and only if
      it is finished and has an entry among the dropped ones. */
  lemma ReserveDropsOldest(t: Table, id: string) returns (k: nat)
    requires Valid(t) && id !in t.slots
    ensures
      var w, r := WithFresh(t, id), Reserved(t, id);
      && k <= |w.order| && r.order == OpenOnes(w, w.order[..k]) + w.order[k..]
      && |w.order| - |r.order| == |ClosedOnes(w, w.order[..k])| <= Over(w)
      && (|w.order| - |r.order| == Over(w) || k == |w.order|)
      && (forall x | x in t.slots :: x !in r.slots <==> !Open(t, x) && x in w.order[..k])
  {
    var w := WithFresh(t, id);
    k := EvictedDrops(w);
    OnesSplit(w, w.order[..k]);
    forall x | x in t.slots ensures Open(w, x) <==> Open(t, x) {}
  }

  /** So at most that many sends are forgotten, and none while the order has room. */
  lemma ReserveForgetsFew(t: Table, id: string)
    requires Valid(t) && id !in t.slots
    ensures
      var r := Reserved(t, id);
      && |t.slots.Keys - r.slots.Keys| <= |t.order| + 1 - |r.order| <= Over(WithFresh(t, id))
      && (|t.order| + 1 <= t.cap ==> t.slots.Keys - r.slots.Keys == {})
      && (|r.order| >= t.cap || |r.order| == |t.order| + 1)
  {
    var k := ReserveDropsOldest(t, id);
    GoneFit(WithFresh(t, id), t.slots.Keys - Reserved(t, id).slots.Keys, k);
    NoneGone(t.slots.Keys - Reserved(t, id).slots.Keys);
  }

  lemma NoneGone(gone: set<string>)
    ensures |gone| == 0 ==> gone == {}
  {
  }

  lemma GoneFit(w: Table, gone: set<string>, k: nat)
    requires InRange(w) && k <= |w.order|
    requires forall x | x in gone :: x in w.order[..k] && Forgettable(w, x)
    ensures |gone| <= |ClosedOnes(w, w.order[..k])|
  {
    OnesSplit(w, w.order[..k]);
    KeysFit(gone, ClosedOnes(w, w.order[..k]));
  }
}
