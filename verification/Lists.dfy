/** Lists without repetition, the sets of their elements, and concatenation. */
module Lists {

  ghost predicate Distinct<T>(s: seq<T>) {
    forall i, j | 0 <= i < j < |s| :: s[i] != s[j]
  }

  lemma {:induction false} MembersSize<T>(s: seq<T>, members: set<T>)
    requires Distinct(s) && forall k :: k in s <==> k in members
    ensures |s| == |members|
  {
    if s == [] {
      assert members == {};
    } else {
      assert s == [s[0]] + s[1..];
      MembersSize(s[1..], members - {s[0]});
    }
  }

  lemma {:induction false} KeysFit<T>(keys: set<T>, q: seq<T>)
    requires forall k | k in keys :: k in q
    ensures |keys| <= |q|
  {
    if q == [] {
      assert keys == {};
    } else {
      KeysFit(keys - {q[0]}, q[1..]);
      assert keys <= (keys - {q[0]}) + {q[0]};
    }
  }

  lemma ConcatAssoc<T>(a: seq<T>, b: seq<T>, c: seq<T>)
    ensures a + (b + c) == (a + b) + c
  {
  }
}
