/** How often something occurs in a list: the measure in which conservation is
    stated throughout. */
module Counting {

  ghost function Count<T>(q: seq<T>, x: T): nat {
    if q == [] then 0 else (if q[0] == x then 1 else 0) + Count(q[1..], x)
  }

  lemma {:induction false} CountConcat<T>(a: seq<T>, b: seq<T>, x: T)
    ensures Count(a + b, x) == Count(a, x) + Count(b, x)
  {
    if a == [] {
      assert a + b == b;
    } else {
      assert (a + b)[1..] == a[1..] + b;
      CountConcat(a[1..], b, x);
    }
  }

  lemma CountOne<T>(y: T, x: T)
    ensures Count([y], x) == if y == x then 1 else 0
  {
    assert [y][1..] == [];
  }

  lemma CountAdd<T>(q: seq<T>, y: T, x: T)
    ensures Count(q + [y], x) == Count(q, x) + if y == x then 1 else 0
  {
    CountConcat(q, [y], x);
    CountOne(y, x);
  }

  lemma CountTake<T>(q: seq<T>, i: nat, x: T)
    requires i < |q|
    ensures Count(q[..i] + q[i + 1..], x) + (if q[i] == x then 1 else 0) == Count(q, x)
  {
    assert q == q[..i] + q[i..];
    CountConcat(q[..i], q[i..], x);
    assert q[i..][1..] == q[i + 1..];
    CountConcat(q[..i], q[i + 1..], x);
  }

  lemma {:induction false} CountIsMultiplicity<T>(q: seq<T>, x: T)
    ensures Count(q, x) == multiset(q)[x]
  {
    if q != [] {
      CountIsMultiplicity(q[1..], x);
      assert q == [q[0]] + q[1..];
    }
  }
}
