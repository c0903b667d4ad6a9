/** Stable sorting by an order given as a function, and the order of strings. */
module Ordering {
  import opened Lists

  /** Strings compare as Go compares them: first difference, then length. */
  predicate Less(a: string, b: string) {
    b != [] && (a == [] || a[0] < b[0] || (a[0] == b[0] && Less(a[1..], b[1..])))
  }

  lemma {:induction false} LessAsymmetric(a: string, b: string)
    requires Less(a, b)
    ensures !Less(b, a)
    decreases |a|
  {
    if a != [] && a[0] == b[0] { LessAsymmetric(a[1..], b[1..]); }
  }

  lemma {:induction false} LessTransitive(a: string, b: string, c: string)
    requires Less(a, b) && Less(b, c)
    ensures Less(a, c)
    decreases |a|
  {
    if a != [] && a[0] == b[0] && b[0] == c[0] { LessTransitive(a[1..], b[1..], c[1..]); }
  }

  lemma {:induction false} LessTotal(a: string, b: string)
    requires a != b
    ensures Less(a, b) || Less(b, a)
    decreases |a|
  {
    if a != [] && b != [] && a[0] == b[0] {
      assert a == [a[0]] + a[1..] && b == [b[0]] + b[1..];
      LessTotal(a[1..], b[1..]);
    }
  }

  ghost predicate StrictOrder<T(!new)>(before: (T, T) -> bool) {
    && (forall x, y :: before(x, y) ==> !before(y, x))
    && (forall x, y, z :: before(x, y) && before(y, z) ==> before(x, z))
  }

  /** The order decides between any two different elements of s. */
  ghost predicate Decides<T(!new)>(before: (T, T) -> bool, s: seq<T>) {
    forall x, y | x in s && y in s && x != y :: before(x, y) || before(y, x)
  }

  /** x goes after everything it does not come before, so ties keep their order. */
  function Insert<T>(before: (T, T) -> bool, x: T, s: seq<T>): seq<T> {
    if s == [] then [x]
    else if before(x, s[0]) then [x] + s
    else [s[0]] + Insert(before, x, s[1..])
  }

  function StableSort<T>(before: (T, T) -> bool, s: seq<T>): seq<T>
    decreases |s|
  {
    if s == [] then [] else Insert(before, s[|s| - 1], StableSort(before, s[..|s| - 1]))
  }

  ghost predicate Ascends<T>(before: (T, T) -> bool, s: seq<T>) {
    forall i, j | 0 <= i < j < |s| :: before(s[i], s[j])
  }

  lemma {:induction false} InsertMembers<T>(before: (T, T) -> bool, x: T, s: seq<T>)
    ensures |Insert(before, x, s)| == |s| + 1
    ensures forall y :: y in Insert(before, x, s) <==> y == x || y in s
  {
    if s != [] && !before(x, s[0]) {
      InsertMembers(before, x, s[1..]);
      assert s == [s[0]] + s[1..];
    }
  }

  lemma {:induction false} SortMembers<T>(before: (T, T) -> bool, s: seq<T>)
    ensures |StableSort(before, s)| == |s|
    ensures forall y :: y in StableSort(before, s) <==> y in s
    decreases |s|
  {
    if s != [] {
      SortMembers(before, s[..|s| - 1]);
      InsertMembers(before, s[|s| - 1], StableSort(before, s[..|s| - 1]));
      assert s == s[..|s| - 1] + [s[|s| - 1]];
    }
  }

  lemma {:induction false} InsertAscends<T(!new)>(before: (T, T) -> bool, x: T, s: seq<T>)
    requires StrictOrder(before) && Ascends(before, s)
    requires forall y | y in s :: before(x, y) || before(y, x)
    ensures Ascends(before, Insert(before, x, s))
  {
    if s != [] {
      if before(x, s[0]) {
        var r := [x] + s;
        forall i, j | 0 <= i < j < |r| ensures before(r[i], r[j]) {
          if i == 0 && j > 1 { assert before(s[0], s[j - 1]); }
        }
      } else {
        InsertAscends(before, x, s[1..]);
        InsertMembers(before, x, s[1..]);
        var rest := Insert(before, x, s[1..]);
        assert forall y | y in rest :: before(s[0], y);
        ConsAscends(before, s[0], rest);
      }
    }
  }

  lemma ConsAscends<T>(before: (T, T) -> bool, x: T, s: seq<T>)
    requires Ascends(before, s) && forall y | y in s :: before(x, y)
    ensures Ascends(before, [x] + s)
  {
    var r := [x] + s;
    forall i, j | 0 <= i < j < |r| ensures before(r[i], r[j]) {
      assert r[j] == s[j - 1] && s[j - 1] in s;
    }
  }

  lemma {:induction false} SortAscends<T(!new)>(before: (T, T) -> bool, s: seq<T>)
    requires StrictOrder(before) && Decides(before, s) && Distinct(s)
    ensures Ascends(before, StableSort(before, s))
    decreases |s|
  {
    if s != [] {
      var init, x := s[..|s| - 1], s[|s| - 1];
      SortAscends(before, init);
      SortMembers(before, init);
      InsertAscends(before, x, StableSort(before, init));
    }
  }

  /** Two ascending lists of the same elements are the same list. */
  lemma {:induction false} AscendingUnique<T(!new)>(before: (T, T) -> bool, s: seq<T>, t: seq<T>)
    requires StrictOrder(before) && Ascends(before, s) && Ascends(before, t)
    requires forall x :: x in s <==> x in t
    ensures s == t
    decreases |s|
  {
    assert t != [] ==> t[0] in t;
    if s != [] {
      assert s[0] in t && t != [];
      HeadUnique(before, s, t);
      forall x ensures x in s[1..] <==> x in t[1..] {
        TailMember(before, s, x);
        TailMember(before, t, x);
      }
      AscendingUnique(before, s[1..], t[1..]);
      assert s == [s[0]] + s[1..] && t == [t[0]] + t[1..];
    }
  }

  lemma HeadUnique<T(!new)>(before: (T, T) -> bool, s: seq<T>, t: seq<T>)
    requires StrictOrder(before) && Ascends(before, s) && Ascends(before, t)
    requires s != [] && t != [] && s[0] in t && t[0] in s
    ensures s[0] == t[0]
  {
    var i :| 0 <= i < |t| && t[i] == s[0];
    var j :| 0 <= j < |s| && s[j] == t[0];
    assert i > 0 ==> before(t[0], t[i]);
    assert j > 0 ==> before(s[0], s[j]);
  }

  lemma TailMember<T(!new)>(before: (T, T) -> bool, s: seq<T>, x: T)
    requires StrictOrder(before) && Ascends(before, s) && s != []
    ensures x in s[1..] <==> x in s && x != s[0]
  {
    if x in s[1..] {
      var i :| 0 <= i < |s[1..]| && s[1..][i] == x;
      assert before(s[0], s[i + 1]);
    }
    assert s == [s[0]] + s[1..];
  }

  /** Sorting depends only on which elements there are. */
  lemma SortIgnoresOrder<T(!new)>(before: (T, T) -> bool, s: seq<T>, t: seq<T>)
    requires StrictOrder(before) && Decides(before, s) && Distinct(s) && Distinct(t)
    requires forall x :: x in s <==> x in t
    ensures StableSort(before, s) == StableSort(before, t)
  {
    SortAscends(before, s);
    SortAscends(before, t);
    SortMembers(before, s);
    SortMembers(before, t);
    AscendingUnique(before, StableSort(before, s), StableSort(before, t));
  }

  lemma SortTwo<T>(before: (T, T) -> bool, x: T, y: T)
    ensures StableSort(before, [x, y]) == if before(y, x) then [y, x] else [x, y]
  {
    assert [x, y][..1] == [x] && [x][..0] == [];
    assert StableSort(before, [x]) == Insert(before, x, []) == [x];
    assert StableSort(before, [x, y]) == Insert(before, y, [x]);
    assert [x][1..] == [] && Insert(before, y, []) == [y];
    assert [y] + [x] == [y, x] && [x] + [y] == [x, y];
  }

  lemma LessIsStrict()
    ensures StrictOrder(Less)
  {
    forall x, y | Less(x, y) ensures !Less(y, x) { LessAsymmetric(x, y); }
    forall x, y, z | Less(x, y) && Less(y, z) ensures Less(x, z) { LessTransitive(x, y, z); }
  }

  lemma LessDecides(s: seq<string>)
    ensures Decides(Less, s)
  {
    forall x, y | x in s && y in s && x != y ensures Less(x, y) || Less(y, x) { LessTotal(x, y); }
  }
}
