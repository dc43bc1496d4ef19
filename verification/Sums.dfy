/** Sums over lists, which depend only on what is in the list and not on its order. */
module Sums {
  import Bags

  function SumOf<T>(f: T -> nat, s: seq<T>): nat {
    if s == [] then 0 else SumOf(f, s[..|s| - 1]) + f(s[|s| - 1])
  }

  lemma {:induction false} SumAppend<T>(f: T -> nat, a: seq<T>, b: seq<T>)
    ensures SumOf(f, a + b) == SumOf(f, a) + SumOf(f, b)
    decreases |b|
  {
    if b == [] {
      assert a + b == a;
    } else {
      assert (a + b)[..|a + b| - 1] == a + b[..|b| - 1];
      SumAppend(f, a, b[..|b| - 1]);
    }
  }

  lemma {:induction false} SumOfBag<T>(f: T -> nat, a: seq<T>, b: seq<T>)
    requires multiset(a) == multiset(b)
    ensures SumOf(f, a) == SumOf(f, b)
  {
    if |a| == 0 {
      assert |multiset(b)| == 0;
      assert b == [];
    } else {
      var init, last := a[..|a| - 1], a[|a| - 1];
      assert a == init + [last];
      assert last in multiset(b);
      var i := Bags.TakeOut(b, last);
      assert multiset(b[..i] + b[i + 1..]) == multiset(init);
      SumOfBag(f, init, b[..i] + b[i + 1..]);
      SumAppend(f, b[..i], b[i + 1..]);
      SumAppend(f, b[..i] + [last], b[i + 1..]);
      SumAppend(f, b[..i], [last]);
    }
  }

  lemma {:induction false} SumOfNothing<T>(f: T -> nat, s: seq<T>)
    requires forall x :: x in s ==> f(x) == 0
    ensures SumOf(f, s) == 0
  {
    if s != [] {
      assert forall x :: x in s[..|s| - 1] ==> x in s;
      SumOfNothing(f, s[..|s| - 1]);
    }
  }
}
