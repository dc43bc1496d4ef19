/** Reordering a list only reorders what is measured of its elements. */
module Bags {
  function Measured<T>(f: T -> int, s: seq<T>): (r: seq<int>)
    ensures |r| == |s|
  {
    seq(|s|, i requires 0 <= i < |s| => f(s[i]))
  }

  lemma MeasuredSnoc<T>(f: T -> int, s: seq<T>, x: T)
    ensures multiset(Measured(f, s + [x])) == multiset(Measured(f, s)) + multiset{f(x)}
  {
    assert Measured(f, s + [x]) == Measured(f, s) + [f(x)];
  }

  lemma MeasuredMiddle<T>(f: T -> int, a: seq<T>, x: T, b: seq<T>)
    ensures multiset(Measured(f, a + [x] + b)) == multiset(Measured(f, a + b)) + multiset{f(x)}
  {
    assert Measured(f, a + [x] + b) == Measured(f, a) + [f(x)] + Measured(f, b);
    assert Measured(f, a + b) == Measured(f, a) + Measured(f, b);
  }

  /** b is some list around x, and taking that x out leaves the rest of the bag. */
  lemma TakeOut<T>(b: seq<T>, x: T) returns (i: nat)
    requires x in b
    ensures i < |b| && b == b[..i] + [x] + b[i + 1..]
    ensures multiset(b[..i] + b[i + 1..]) == multiset(b) - multiset{x}
  {
    i :| 0 <= i < |b| && b[i] == x;
    assert b == b[..i] + [x] + b[i + 1..];
  }

  lemma {:induction false} SameBagSameMeasures<T>(f: T -> int, a: seq<T>, b: seq<T>)
    requires multiset(a) == multiset(b)
    ensures multiset(Measured(f, a)) == multiset(Measured(f, b))
  {
    if |a| > 0 {
      var init, last := a[..|a| - 1], a[|a| - 1];
      assert a == init + [last];
      assert last in multiset(b);
      var i := TakeOut(b, last);
      var rest := b[..i] + b[i + 1..];
      assert multiset(rest) == multiset(init);
      SameBagSameMeasures(f, init, rest);
      MeasuredSnoc(f, init, last);
      MeasuredMiddle(f, b[..i], last, b[i + 1..]);
    } else {
      assert |multiset(b)| == 0;
      assert b == [];
    }
  }

  /** A smaller bag taken out of a list leaves a list. */
  lemma {:induction false} Remainder<T>(b: seq<T>, a: seq<T>) returns (rest: seq<T>)
    requires multiset(a) <= multiset(b)
    ensures multiset(rest) == multiset(b) - multiset(a)
  {
    if |a| == 0 {
      rest := b;
    } else {
      var init, last := a[..|a| - 1], a[|a| - 1];
      assert a == init + [last];
      var before := Remainder(b, init);
      assert last in multiset(before);
      var i := TakeOut(before, last);
      rest := before[..i] + before[i + 1..];
    }
  }

  lemma Inserted<T>(s: seq<T>, x: T, i: nat)
    requires i <= |s|
    ensures multiset(s[..i] + [x] + s[i..]) == multiset(s) + multiset{x}
  {
    assert s == s[..i] + s[i..];
  }

  lemma SameTail<T>(v: seq<T>, w: seq<T>)
    requires |v| > 0 && |w| > 0 && v[0] == w[0] && multiset(v) == multiset(w)
    ensures multiset(v[1..]) == multiset(w[1..])
  {
    assert v == [v[0]] + v[1..] && w == [w[0]] + w[1..];
    assert multiset(v) - multiset{v[0]} == multiset(v[1..]);
    assert multiset(w) - multiset{w[0]} == multiset(w[1..]);
  }

  lemma SomeOrNone<T(!new)>(s: set<T>)
    ensures s == {} || exists x :: x in s
  {
    if !exists x :: x in s {
      assert s == {};
    }
  }

  ghost function Member<T(!new)>(s: set<T>): (x: T)
    requires s != {}
    ensures x in s
  {
    SomeOrNone(s);
    var x :| x in s;
    x
  }

  /** The keys of a map in some order; Go promises none in particular. */
  ghost predicate KeyOrder<K(!new), V>(m: map<K, V>, order: seq<K>) {
    && (forall k :: k in order <==> k in m)
    && (forall i, j :: 0 <= i < j < |order| ==> order[i] != order[j])
  }

  /** Every map's keys have an order. */
  lemma {:induction false} SomeKeyOrder<K(!new), V>(m: map<K, V>) returns (order: seq<K>)
    ensures KeyOrder(m, order)
    decreases |m|
  {
    if m.Keys == {} {
      order := [];
    } else {
      var k := Member(m.Keys);
      var rest := m - {k};
      assert rest.Keys == m.Keys - {k};
      var init := SomeKeyOrder(rest);
      order := init + [k];
      forall i | 0 <= i < |init|
        ensures init[i] != k
      {
        assert init[i] in init;
      }
    }
  }

  lemma KeyOrderExists<K(!new), V>(m: map<K, V>)
    ensures exists order :: KeyOrder(m, order)
  {
    var _ := SomeKeyOrder(m);
  }

  ghost function SomeOrder<K(!new), V>(m: map<K, V>): (order: seq<K>)
    ensures KeyOrder(m, order)
  {
    KeyOrderExists(m);
    var order :| KeyOrder(m, order);
    order
  }
}
