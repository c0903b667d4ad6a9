/** The indexer's bounded memory: a map kept small by a circular array of keys
    that says what to forget next. */
module RingMap {
  import opened Lists

  /** The map, and the ring read from the slot that is overwritten next, so
      oldest first. A slot never written holds "". */
  datatype Ring = Ring(m: map<string, string>, slots: seq<string>)

  function Blank(n: nat): seq<string> {
    seq(n, _ => "")
  }

  /** The eviction guard looks at the name in the slot, not at the map. */
  function Forgotten(r: Ring): map<string, string>
    requires |r.slots| > 0
  {
    if r.slots[0] != "" then r.m - {r.slots[0]} else r.m
  }

  function Inserted(r: Ring, key: string, val: string): Ring
    requires |r.slots| > 0
  {
    Ring(Forgotten(r)[key := val], r.slots[1..] + [key])
  }

  function Added(r: Ring, id: string): Ring
    requires |r.slots| > 0
  {
    if id in r.m then r else Inserted(r, id, "")
  }

  function Set(r: Ring, key: string, val: string): Ring
    requires |r.slots| > 0
  {
    if key in r.m && r.m[key] != "" then r.(m := r.m[key := val]) else Inserted(r, key, val)
  }

  /** The slots in the order in which they will be overwritten. */
  function Rotated(s: seq<string>, n: nat): seq<string>
    requires n <= |s|
  {
    s[n..] + s[..n]
  }

  /** The slot after n, wrapping at the end. */
  function Succ(n: nat, cap: nat): (k: nat)
    requires n < cap
    ensures k == if n + 1 == cap then 0 else n + 1
  {
    (n + 1) % cap
  }

  /** Overwriting slot n and moving on drops the oldest name and adds a newest. */
  lemma RotateStep(s: seq<string>, n: nat, key: string)
    requires n < |s|
    ensures
      var s' := s[n := key];
      Rotated(s', Succ(n, |s|)) == Rotated(s, n)[1..] + [key]
  {
    assert Rotated(s, n)[1..] == s[n + 1..] + s[..n];
  }

  class Map {
    const cap: nat
    const order: array<string>
    var m: map<string, string>
    var next: nat

    ghost predicate Valid()
      reads this
    {
      order.Length == cap && next < cap
    }

    ghost function Abs(): Ring
      reads this, order
      requires Valid()
    {
      Ring(m, Rotated(order[..], next))
    }

    constructor (capacity: int)
      ensures Valid() && fresh(order)
      ensures cap == if capacity <= 0 then 1 else capacity
      ensures Abs() == Ring(map[], Blank(cap))
    {
      var n: nat := if capacity <= 0 then 1 else capacity;
      cap := n;
      order := new string[n](_ => "");
      m := map[];
      next := 0;
      new;
      assert Rotated(order[..], 0) == Blank(n);
    }

    method EvictSlot()
      requires Valid()
      modifies this`m
      ensures m == Forgotten(old(Abs()))
    {
      assert Abs().slots[0] == order[next];
      if order[next] != "" {
        m := m - {order[next]};
      }
    }

    /** The slot after the freed one comes next, wrapping at the end. */
    method Occupy(key: string, val: string)
      requires Valid()
      modifies this, order
      ensures Valid()
      ensures Abs() == Ring(old(m)[key := val], old(Abs()).slots[1..] + [key])
    {
      RotateStep(order[..], next, key);
      m := m[key := val];
      var after := Succ(next, cap);
      order[next] := key;
      assert order[..] == old(order[..])[next := key];
      next := after;
    }

    /** Records id; the answer says whether it was there already. */
    method PutIfAbsent(id: string) returns (duplicate: bool)
      requires Valid()
      modifies this, order
      ensures Valid()
      ensures duplicate == (id in old(m))
      ensures Abs() == Added(old(Abs()), id)
    {
      if id in m { return true; }
      EvictSlot();
      Occupy(id, "");
      return false;
    }

    method Put(key: string, val: string)
      requires Valid()
      modifies this, order
      ensures Valid()
      ensures Abs() == Set(old(Abs()), key, val)
    {
      if key in m && m[key] != "" {
        m := m[key := val];
        return;
      }
      EvictSlot();
      Occupy(key, val);
    }

    method Get(key: string) returns (val: string, ok: bool)
      requires Valid()
      ensures ok == (key in m)
      ensures val == if ok then m[key] else ""
    {
      if key in m { return m[key], true; }
      return "", false;
    }
  }

  // ---- the reference: a list of fresh arrivals of which the last `cap` count ----

  function Last(h: seq<string>, cap: nat): seq<string> {
    if |h| <= cap then h else h[|h| - cap..]
  }

  /** The empty name shares its spelling with an unused slot, so once recorded
      it is never forgotten; every other name is remembered while recent. */
  predicate Remembered(h: seq<string>, cap: nat, id: string) {
    id in Last(h, cap) || (id == "" && "" in h)
  }

  /** The fresh arrivals among a list of names, by the reference alone. */
  function Arrivals(cap: nat, ids: seq<string>): (h: seq<string>)
    decreases |ids|
  {
    if ids == [] then []
    else
      var h := Arrivals(cap, ids[..|ids| - 1]);
      var id := ids[|ids| - 1];
      if Remembered(h, cap, id) then h else h + [id]
  }

  function AddAll(cap: nat, ids: seq<string>): (r: Ring)
    requires cap > 0
    ensures |r.slots| == cap
    decreases |ids|
  {
    if ids == [] then Ring(map[], Blank(cap)) else Added(AddAll(cap, ids[..|ids| - 1]), ids[|ids| - 1])
  }

  /** The ring refines the reference. */
  ghost predicate Tracks(r: Ring, cap: nat, h: seq<string>) {
    && r.slots == Blank(cap - |Last(h, cap)|) + Last(h, cap)
    && Distinct(Last(h, cap))
    && forall k :: k in r.m <==> Remembered(h, cap, k)
  }

  lemma LastSnoc(h: seq<string>, cap: nat, k: string)
    requires cap > 0
    ensures Last(h + [k], cap) == if |h| < cap then h + [k] else Last(h, cap)[1..] + [k]
  {
  }

  lemma InsertSlots(slots: seq<string>, cap: nat, h: seq<string>, k: string)
    requires cap > 0 && slots == Blank(cap - |Last(h, cap)|) + Last(h, cap)
    ensures slots[1..] + [k] == Blank(cap - |Last(h + [k], cap)|) + Last(h + [k], cap)
    ensures slots[0] == if |h| < cap then "" else Last(h, cap)[0]
  {
    LastSnoc(h, cap, k);
    if |h| < cap {
      assert slots[0] == Blank(cap - |h|)[0];
      assert slots[1..] == Blank(cap - |h| - 1) + h;
    } else {
      assert slots == Last(h, cap);
    }
  }

  lemma RotatedMember(w: seq<string>, k: string, x: string)
    requires w != [] && Distinct(w)
    ensures x in w[1..] + [k] <==> x == k || (x in w && x != w[0])
  {
    assert w == [w[0]] + w[1..];
  }

  lemma LastAmong(h: seq<string>, cap: nat, x: string)
    ensures x in Last(h, cap) ==> x in h
  {
  }

  lemma InsertRemembers(h: seq<string>, cap: nat, k: string, x: string)
    requires cap > 0 && Distinct(Last(h, cap)) && !Remembered(h, cap, k)
    ensures Remembered(h + [k], cap, x) <==>
            x == k || (Remembered(h, cap, x) && (|h| < cap || x == "" || x != Last(h, cap)[0]))
  {
    LastSnoc(h, cap, k);
    LastAmong(h, cap, x);
    if |h| >= cap { RotatedMember(Last(h, cap), k, x); }
  }

  lemma InsertTracks(r: Ring, cap: nat, h: seq<string>, k: string, v: string)
    requires cap > 0 && Tracks(r, cap, h) && k !in r.m
    ensures Tracks(Inserted(r, k, v), cap, h + [k])
  {
    InsertSlots(r.slots, cap, h, k);
    LastSnoc(h, cap, k);
    assert !Remembered(h, cap, k);
    DistinctSnoc(if |h| < cap then h else Last(h, cap)[1..], k);
    var s := Inserted(r, k, v);
    forall x
      ensures x in s.m <==> Remembered(h + [k], cap, x)
    {
      InsertRemembers(h, cap, k, x);
    }
  }

  lemma DistinctSnoc(w: seq<string>, k: string)
    requires Distinct(w) && k !in w
    ensures Distinct(w + [k])
  {
  }

  lemma {:induction false} AddAllTracks(cap: nat, ids: seq<string>)
    requires cap > 0
    ensures Tracks(AddAll(cap, ids), cap, Arrivals(cap, ids))
    decreases |ids|
  {
    if ids == [] {
      assert Blank(cap) == Blank(cap) + [];
    } else {
      var was, id := ids[..|ids| - 1], ids[|ids| - 1];
      AddAllTracks(cap, was);
      if id !in AddAll(cap, was).m { InsertTracks(AddAll(cap, was), cap, Arrivals(cap, was), id, ""); }
    }
  }

  /** A name is taken for a replay exactly when it is among the last `cap` fresh
      arrivals, or is the empty name seen before. */
  lemma ReplayIffRemembered(cap: nat, ids: seq<string>, id: string)
    requires cap > 0
    ensures id in AddAll(cap, ids).m <==> Remembered(Arrivals(cap, ids), cap, id)
  {
    AddAllTracks(cap, ids);
  }

  /** Counting from its latest fresh arrival, at position i: a non-empty name is
      taken for a replay exactly while fewer than `cap` fresh names followed. */
  lemma ReplayWindow(cap: nat, ids: seq<string>, i: nat)
    requires cap > 0 && i < |Arrivals(cap, ids)|
    requires Arrivals(cap, ids)[i] != "" && Arrivals(cap, ids)[i] !in Arrivals(cap, ids)[i + 1..]
    ensures Arrivals(cap, ids)[i] in AddAll(cap, ids).m <==> |Arrivals(cap, ids)| - 1 - i < cap
  {
    var h := Arrivals(cap, ids);
    ReplayIffRemembered(cap, ids, h[i]);
    if |h| - 1 - i < cap {
      assert Last(h, cap)[i - (|h| - |Last(h, cap)|)] == h[i];
    } else {
      assert Last(h, cap) == h[i + 1..][|h| - cap - i - 1..];
    }
  }

  lemma RecentIsRemembered(h: seq<string>, cap: nat, i: nat)
    requires i < |h|
    ensures h[i] in h && (|h| - i <= cap ==> h[i] in Last(h, cap))
  {
    if |h| - i <= cap { assert Last(h, cap)[i - (|h| - |Last(h, cap)|)] == h[i]; }
  }

  /** Between two fresh arrivals of one name lie at least `cap` others. */
  lemma {:induction false} FreshAgainLate(cap: nat, ids: seq<string>, i: nat, j: nat)
    requires cap > 0 && i < j < |Arrivals(cap, ids)| && Arrivals(cap, ids)[i] == Arrivals(cap, ids)[j]
    ensures j - i > cap && Arrivals(cap, ids)[i] != ""
    decreases |ids|
  {
    var was := ids[..|ids| - 1];
    var h := Arrivals(cap, was);
    if j < |h| {
      FreshAgainLate(cap, was, i, j);
    } else {
      RecentIsRemembered(h, cap, i);
    }
  }

  // ---- size ----

  /** The size never passes the capacity, except by one once the empty name has
      been recorded and `cap` fresh names have followed it. */
  lemma SizeBound(cap: nat, ids: seq<string>)
    requires cap > 0
    ensures
      var h := Arrivals(cap, ids);
      |AddAll(cap, ids).m| == |Last(h, cap)| + if "" in h && "" !in Last(h, cap) then 1 else 0
  {
    var h, m := Arrivals(cap, ids), AddAll(cap, ids).m;
    AddAllTracks(cap, ids);
    var w := set x | x in Last(h, cap);
    MembersSize(Last(h, cap), w);
    assert m.Keys == if "" in h && "" !in Last(h, cap) then w + {""} else w;
  }

  /** So the cap holds outright for non-empty names. */
  lemma SizeWithinCap(cap: nat, ids: seq<string>)
    requires cap > 0 && "" !in ids
    ensures |AddAll(cap, ids).m| <= cap
  {
    SizeBound(cap, ids);
    ArrivalsAreIds(cap, ids, "");
  }

  lemma {:induction false} ArrivalsAreIds(cap: nat, ids: seq<string>, id: string)
    ensures id in Arrivals(cap, ids) <==> id in ids
    decreases |ids|
  {
    if ids != [] {
      var was, last := ids[..|ids| - 1], ids[|ids| - 1];
      ArrivalsAreIds(cap, was, id);
      assert ids == was + [last];
      var h := Arrivals(cap, was);
      if Remembered(h, cap, last) { assert last in h; ArrivalsAreIds(cap, was, last); }
    }
  }

  /** The cap is passed, by exactly one, if and only if the empty name was recorded
      and has left the last `cap` arrivals. */
  lemma OverflowsIff(cap: nat, ids: seq<string>)
    requires cap > 0
    ensures |AddAll(cap, ids).m| > cap <==> "" in ids && "" !in Last(Arrivals(cap, ids), cap)
    ensures |AddAll(cap, ids).m| <= cap + 1
  {
    SizeBound(cap, ids);
    ArrivalsAreIds(cap, ids, "");
  }

  // ---- put ----

  datatype Pair = Pair(key: string, val: string)

  function SetAll(cap: nat, pairs: seq<Pair>): (r: Ring)
    requires cap > 0
    ensures |r.slots| == cap
    decreases |pairs|
  {
    if pairs == [] then Ring(map[], Blank(cap))
    else
      var p := pairs[|pairs| - 1];
      Set(SetAll(cap, pairs[..|pairs| - 1]), p.key, p.val)
  }

  function Keys(pairs: seq<Pair>): (ks: seq<string>)
    ensures |ks| == |pairs|
  {
    seq(|pairs|, i requires 0 <= i < |pairs| => pairs[i].key)
  }

  /** The value most recently given for a key. */
  function LatestFor(pairs: seq<Pair>, key: string): string
    decreases |pairs|
  {
    if pairs == [] then ""
    else if pairs[|pairs| - 1].key == key then pairs[|pairs| - 1].val
    else LatestFor(pairs[..|pairs| - 1], key)
  }

  predicate Named(pairs: seq<Pair>) {
    forall p | p in pairs :: p.key != "" && p.val != ""
  }

  /** A key that is found carries the value last given for it. */
  lemma {:induction false} LookupIsLatest(cap: nat, pairs: seq<Pair>, k: string)
    requires cap > 0 && k in SetAll(cap, pairs).m
    ensures SetAll(cap, pairs).m[k] == LatestFor(pairs, k)
    decreases |pairs|
  {
    if pairs != [] && k != pairs[|pairs| - 1].key { LookupIsLatest(cap, pairs[..|pairs| - 1], k); }
  }

  /** The ring refines the reference after the first n puts. */
  ghost predicate TracksAt(cap: nat, pairs: seq<Pair>, n: nat)
    requires cap > 0 && n <= |pairs|
  {
    Tracks(SetAll(cap, pairs[..n]), cap, Arrivals(cap, Keys(pairs[..n])))
  }

  /** Put number n finds its key mapped to the empty value. */
  predicate FindsEmpty(cap: nat, pairs: seq<Pair>, n: nat)
    requires cap > 0 && n < |pairs|
  {
    var m := SetAll(cap, pairs[..n]).m;
    pairs[n].key in m && m[pairs[n].key] == ""
  }

  lemma PutSnoc(cap: nat, pairs: seq<Pair>, p: Pair)
    requires cap > 0
    ensures SetAll(cap, pairs + [p]) == Set(SetAll(cap, pairs), p.key, p.val)
    ensures
      var h := Arrivals(cap, Keys(pairs));
      Arrivals(cap, Keys(pairs + [p])) == if Remembered(h, cap, p.key) then h else h + [p.key]
  {
    assert (pairs + [p])[..|pairs|] == pairs;
    assert Keys(pairs + [p])[..|pairs|] == Keys(pairs);
  }

  /** Inserting a key again although it is still remembered moves every slot on.
      That goes unnoticed only in a ring of one or, for the empty name, in a ring
      with nothing but blank slots. */
  predicate Unnoticed(r: Ring, cap: nat, k: string) {
    if k == "" then forall i | 0 <= i < |r.slots| :: r.slots[i] == "" else cap == 1
  }

  /** Put number n is not one that spoils the ring. */
  predicate Harmless(cap: nat, pairs: seq<Pair>, n: nat)
    requires cap > 0 && n < |pairs|
  {
    !FindsEmpty(cap, pairs, n) || Unnoticed(SetAll(cap, pairs[..n]), cap, pairs[n].key)
  }

  lemma PutStep(cap: nat, pairs: seq<Pair>, n: nat)
    requires cap > 0 && n < |pairs| && TracksAt(cap, pairs, n)
    ensures TracksAt(cap, pairs, n + 1) <==> Harmless(cap, pairs, n)
  {
    var was, p := pairs[..n], pairs[n];
    assert pairs[..n + 1] == was + [p];
    PutSnoc(cap, was, p);
    SetStep(SetAll(cap, was), cap, Arrivals(cap, Keys(was)), p.key, p.val);
  }

  lemma SetStep(r: Ring, cap: nat, h: seq<string>, k: string, v: string)
    requires cap > 0 && Tracks(r, cap, h)
    ensures Tracks(Set(r, k, v), cap, if Remembered(h, cap, k) then h else h + [k]) <==>
            !(k in r.m && r.m[k] == "") || Unnoticed(r, cap, k)
  {
    if k !in r.m {
      InsertTracks(r, cap, h, k, v);
    } else if r.m[k] == "" {
      if k == "" { BlankReinserted(r, cap, h, v); } else { Reinserted(r, cap, h, k, v); }
    }
  }

  lemma Reinserted(r: Ring, cap: nat, h: seq<string>, k: string, v: string)
    requires cap > 0 && Tracks(r, cap, h) && k in r.m && k != ""
    ensures Tracks(Inserted(r, k, v), cap, h) <==> cap == 1
  {
    var s, w := r.slots, Last(h, cap);
    if cap == 1 {
      assert w == [k] && s == [k];
      assert s[1..] + [k] == Blank(0) + w;
    } else {
      MovesOn(s, w, cap, k);
    }
  }

  lemma BlankReinserted(r: Ring, cap: nat, h: seq<string>, v: string)
    requires cap > 0 && Tracks(r, cap, h) && "" in r.m
    ensures Tracks(Inserted(r, "", v), cap, h) <==> forall i | 0 <= i < |r.slots| :: r.slots[i] == ""
  {
    var s := r.slots;
    if forall i | 0 <= i < |s| :: s[i] == "" {
      assert s[1..] + [""] == s;
      assert Inserted(r, "", v).m.Keys == r.m.Keys;
    } else {
      var i: nat :| i < |s| && s[i] != "";
      MovesOnBlank(s, i);
    }
  }

  lemma {:induction false} MovesOnBlank(s: seq<string>, i: nat)
    requires i < |s| && s[i] != ""
    ensures s[1..] + [""] != s
    decreases |s| - i
  {
    var moved := s[1..] + [""];
    if i + 1 < |s| && s[i + 1] != "" {
      MovesOnBlank(s, i + 1);
    } else {
      assert moved[i] == "";
    }
  }

  lemma MovesOn(s: seq<string>, w: seq<string>, cap: nat, k: string)
    requires cap >= 2 && |w| <= cap && s == Blank(cap - |w|) + w && Distinct(w) && k in w && k != ""
    ensures s[1..] + [k] != s
  {
    var moved := s[1..] + [k];
    if s[cap - 1] == k {
      assert moved[cap - 2] == k;
      assert s[cap - 2] != k by { if |w| >= 2 { assert s[cap - 2] == w[|w| - 2]; } }
    } else {
      assert moved[cap - 1] == k;
    }
  }

  lemma {:induction false} TracksUpTo(cap: nat, pairs: seq<Pair>, n: nat)
    requires cap > 0 && n <= |pairs| && forall i | 0 <= i < n :: Harmless(cap, pairs, i)
    ensures TracksAt(cap, pairs, n)
    decreases n
  {
    if n == 0 {
      assert Blank(cap) == Blank(cap) + [];
    } else {
      TracksUpTo(cap, pairs, n - 1);
      PutStep(cap, pairs, n - 1);
    }
  }

  /** Put keeps to the reference all along if and only if no put finds its key
      mapped to the empty value, but for the unnoticed cases. */
  lemma PutTracksIff(cap: nat, pairs: seq<Pair>)
    requires cap > 0
    ensures (forall n | 0 <= n <= |pairs| :: TracksAt(cap, pairs, n)) <==>
            forall n | 0 <= n < |pairs| :: Harmless(cap, pairs, n)
  {
    if forall n | 0 <= n < |pairs| :: Harmless(cap, pairs, n) {
      forall n | 0 <= n <= |pairs| ensures TracksAt(cap, pairs, n) { TracksUpTo(cap, pairs, n); }
    } else {
      var n :| 0 <= n < |pairs| && !Harmless(cap, pairs, n);
      if TracksAt(cap, pairs, n) { PutStep(cap, pairs, n); }
    }
  }

  lemma {:induction false} LatestNamed(pairs: seq<Pair>, k: string)
    requires Named(pairs) && k in Keys(pairs)
    ensures LatestFor(pairs, k) != ""
    decreases |pairs|
  {
    var n := |pairs| - 1;
    assert pairs[n] in pairs;
    assert Keys(pairs) == Keys(pairs[..n]) + [pairs[n].key];
    if pairs[n].key != k { LatestNamed(pairs[..n], k); }
  }

  /** Non-empty values are enough for that. */
  lemma SetAllTracks(cap: nat, pairs: seq<Pair>)
    requires cap > 0 && Named(pairs)
    ensures Tracks(SetAll(cap, pairs), cap, Arrivals(cap, Keys(pairs)))
  {
    forall n | 0 <= n < |pairs| ensures !FindsEmpty(cap, pairs, n) { NamedFindsNoEmpty(cap, pairs, n); }
    TracksUpTo(cap, pairs, |pairs|);
    assert pairs[..|pairs|] == pairs;
  }

  lemma {:induction false} SetKeys(cap: nat, pairs: seq<Pair>, k: string)
    requires cap > 0 && k in SetAll(cap, pairs).m
    ensures k in Keys(pairs)
    decreases |pairs|
  {
    var n := |pairs| - 1;
    if n >= 0 && pairs[n].key != k {
      SetKeys(cap, pairs[..n], k);
      assert Keys(pairs[..n]) == Keys(pairs)[..n];
    } else if n >= 0 {
      assert Keys(pairs)[n] == k;
    }
  }

  lemma NamedFindsNoEmpty(cap: nat, pairs: seq<Pair>, n: nat)
    requires cap > 0 && n < |pairs| && Named(pairs)
    ensures !FindsEmpty(cap, pairs, n)
  {
    var was := pairs[..n];
    var k := pairs[n].key;
    if k in SetAll(cap, was).m {
      SetKeys(cap, was, k);
      LatestNamed(was, k);
      LookupIsLatest(cap, was, k);
    }
  }

  /** With non-empty keys and values, as the indexer passes them, a lookup finds
      exactly the keys among the last `cap` fresh ones, with the latest value. */
  lemma GetFindsLatest(cap: nat, pairs: seq<Pair>, k: string)
    requires cap > 0 && Named(pairs)
    ensures k in SetAll(cap, pairs).m <==> k in Last(Arrivals(cap, Keys(pairs)), cap)
    ensures k in SetAll(cap, pairs).m ==> SetAll(cap, pairs).m[k] == LatestFor(pairs, k)
  {
    SetAllTracks(cap, pairs);
    ArrivalsAreIds(cap, Keys(pairs), "");
    if k in SetAll(cap, pairs).m { LookupIsLatest(cap, pairs, k); }
  }

  /** What goes wrong otherwise: the second put takes a second slot, and "a" is
      forgotten after a single fresh key although two fit. */
  lemma EmptyValueForgetsEarly()
    ensures Arrivals(2, ["a", "a", "b"]) == ["a", "b"]
    ensures "a" !in Set(Set(Set(Ring(map[], Blank(2)), "a", ""), "a", "x"), "b", "y").m
  {
    assert Blank(2) == ["", ""];
    assert ["", ""][1..] + ["a"] == ["", "a"];
    assert ["", "a"][1..] + ["a"] == ["a", "a"];
    ArrivalsOfThree();
  }

  lemma ArrivalsOfThree()
    ensures Arrivals(2, ["a", "a", "b"]) == ["a", "b"]
  {
    var ids := ["a", "a", "b"];
    assert ids[..2] == ["a", "a"] && ids[..2][..1] == ["a"] && ids[..2][..1][..0] == [];
    assert Arrivals(2, ids[..2][..1]) == ["a"];
    assert Arrivals(2, ids[..2]) == ["a"];
  }
}
