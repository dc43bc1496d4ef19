/** The n largest of a bag of numbers. */
module TopVotes {
  import Bags

  type Bag = multiset<int>

  /** top holds n of all (or all of them, if there are fewer), and nothing left out exceeds anything kept. */
  ghost predicate IsTop(n: nat, top: Bag, all: Bag) {
    && top <= all
    && |top| == (if |all| < n then |all| else n)
    && NoneAbove(top, all - top)
  }

  ghost predicate NoneAbove(kept: Bag, dropped: Bag) {
    forall x, y :: x in kept && y in dropped ==> y <= x
  }

  lemma SizeOfDifference(a: Bag, b: Bag)
    requires b <= a
    ensures |a - b| == |a| - |b| && (a - b) + b == a
  {
  }

  lemma SameIfContained(a: Bag, b: Bag)
    requires a <= b && |a| >= |b|
    ensures a == b
  {
    SizeOfDifference(b, a);
    assert b - a == multiset{};
    assert (b - a) + a == a;
  }

  lemma SomethingExtra(a: Bag, b: Bag)
    requires a != b && |a| >= |b|
    ensures exists x :: a[x] > b[x]
  {
    if !exists x :: a[x] > b[x] {
      assert a <= b;
      SameIfContained(a, b);
    }
  }

  lemma ExtrasAreEqual(n: nat, s: Bag, t: Bag, all: Bag, x: int, y: int)
    requires IsTop(n, s, all) && IsTop(n, t, all) && s[x] > t[x] && t[y] > s[y]
    ensures x == y
  {
    assert x in s && x in all - t;
    assert y in t && y in all - s;
  }

  /** There is only one bag of the n largest. */
  lemma TopIsUnique(n: nat, s: Bag, t: Bag, all: Bag)
    requires IsTop(n, s, all) && IsTop(n, t, all)
    ensures s == t
  {
    if s != t {
      SomethingExtra(s, t);
      SomethingExtra(t, s);
      var x: int :| s[x] > t[x];
      var y: int :| t[y] > s[y];
      ExtrasAreEqual(n, s, t, all, x, y);
    }
  }

  ghost predicate AtLeast(b: Bag, y: int) {
    forall x :: x in b ==> y <= x
  }

  /** If something smaller than all of part was kept, then all of part was. */
  lemma PartKept(top: Bag, part: Bag, rest: Bag, x: int, y: int)
    requires NoneAbove(top, (part + rest) - top) && x in top && x < y && AtLeast(part, y)
    ensures part + multiset{x} <= top
  {
    forall z
      ensures part[z] <= top[z]
    {
      assert part[z] > top[z] ==> z in (part + rest) - top;
    }
    assert x !in part;
  }

  /** An element of the rest below everything kept of its part stays below everything kept overall. */
  lemma PartBelowTop(n: nat, top: Bag, part: Bag, rest: Bag, y: int)
    requires IsTop(n, top, part + rest) && |part| == n && AtLeast(part, y)
    ensures AtLeast(top, y)
  {
    forall x | x in top
      ensures y <= x
    {
      if x < y {
        PartKept(top, part, rest, x, y);
        SizeOfDifference(top, part + multiset{x});
      }
    }
  }

  /** The n largest can be taken of one part first. */
  lemma TopOfPart(n: nat, top: Bag, part: Bag, all: Bag, rest: Bag)
    requires IsTop(n, part, all) && IsTop(n, top, part + rest)
    ensures IsTop(n, top, all + rest)
  {
    SizeOfDifference(all, part);
    assert top <= all + rest;
    forall x, y | x in top && y in (all + rest) - top
      ensures y <= x
    {
      if y in (part + rest) - top {
      } else {
        assert y in all - part;
        assert AtLeast(part, y);
        PartBelowTop(n, top, part, rest, y);
      }
    }
  }

  ghost function Sum(parts: seq<Bag>): Bag {
    if parts == [] then multiset{} else Sum(parts[..|parts| - 1]) + parts[|parts| - 1]
  }

  /** The n largest of the parts' n largest are the n largest of everything. */
  lemma {:induction false} TopOfTops(n: nat, top: Bag, tops: seq<Bag>, parts: seq<Bag>, rest: Bag)
    requires |tops| == |parts| && forall i :: 0 <= i < |parts| ==> IsTop(n, tops[i], parts[i])
    requires IsTop(n, top, Sum(tops) + rest)
    ensures IsTop(n, top, Sum(parts) + rest)
  {
    if parts != [] {
      var k := |parts| - 1;
      assert Sum(tops) + rest == tops[k] + (Sum(tops[..k]) + rest);
      TopOfPart(n, top, tops[k], parts[k], Sum(tops[..k]) + rest);
      assert parts[k] + (Sum(tops[..k]) + rest) == Sum(tops[..k]) + (parts[k] + rest);
      TopOfTops(n, top, tops[..k], parts[..k], parts[k] + rest);
      assert Sum(parts[..k]) + (parts[k] + rest) == Sum(parts) + rest;
    }
  }

  ghost predicate Descending(v: seq<int>) {
    forall i, j :: 0 <= i < j < |v| ==> v[i] >= v[j]
  }

  lemma HeadIsLargest(v: seq<int>, w: seq<int>)
    requires Descending(v) && |v| > 0 && |w| > 0 && multiset(v) == multiset(w)
    ensures w[0] <= v[0]
  {
    assert w[0] in multiset(w);
    assert w[0] in v;
  }

  lemma SameLength(v: seq<int>, w: seq<int>)
    requires multiset(v) == multiset(w)
    ensures |v| == |w|
  {
    assert |multiset(v)| == |v| && |multiset(w)| == |w|;
  }

  /** A descending list is determined by its elements. */
  lemma {:induction false} DescendingIsUnique(v: seq<int>, w: seq<int>)
    requires Descending(v) && Descending(w) && multiset(v) == multiset(w)
    ensures v == w
  {
    SameLength(v, w);
    if |v| > 0 {
      HeadIsLargest(v, w);
      HeadIsLargest(w, v);
      Bags.SameTail(v, w);
      DescendingIsUnique(v[1..], w[1..]);
    }
  }

  /** v lists the n largest of all, from the largest down. */
  ghost predicate Ranking(n: nat, v: seq<int>, all: Bag) {
    Descending(v) && IsTop(n, multiset(v), all)
  }

  lemma RankingIsUnique(n: nat, v: seq<int>, w: seq<int>, all: Bag)
    requires Ranking(n, v, all) && Ranking(n, w, all)
    ensures v == w
  {
    TopIsUnique(n, multiset(v), multiset(w), all);
    DescendingIsUnique(v, w);
  }

  ghost function Without(m: map<int, nat>, k: int): (r: map<int, nat>)
    requires k in m
    ensures |r| == |m| - 1
    ensures forall l :: l in r <==> l in m && l != k
    ensures forall l :: l in r ==> r[l] == m[l]
  {
    assert (m - {k}).Keys == m.Keys - {k};
    m - {k}
  }

  /** The votes a map holds, each key once. */
  ghost function Votes(m: map<int, nat>): Bag
    decreases |m|
  {
    if m.Keys == {} then multiset{} else multiset{m[Bags.Member(m.Keys)]} + Votes(Without(m, Bags.Member(m.Keys)))
  }

  lemma WithoutTwice(m: map<int, nat>, k: int, l: int)
    requires k in m && l in m && k != l
    ensures Without(Without(m, l), k) == Without(Without(m, k), l)
  {
  }

  lemma BagSwap(a: Bag, b: Bag, c: Bag)
    ensures a + (b + c) == b + (a + c)
  {
  }

  lemma {:induction false} VotesTake(m: map<int, nat>, k: int)
    requires k in m
    ensures Votes(m) == multiset{m[k]} + Votes(Without(m, k))
    decreases |m|
  {
    var l := Bags.Member(m.Keys);
    if l != k {
      var ml, mk := Without(m, l), Without(m, k);
      VotesTake(ml, k);
      VotesTake(mk, l);
      WithoutTwice(m, k, l);
      BagSwap(multiset{m[l]}, multiset{m[k]}, Votes(Without(mk, l)));
    }
  }

  lemma {:induction false} VotesSize(m: map<int, nat>)
    ensures |Votes(m)| == |m|
    ensures forall y :: y in Votes(m) ==> exists k :: k in m && m[k] == y
    decreases |m|
  {
    if m.Keys != {} {
      VotesSize(Without(m, Bags.Member(m.Keys)));
    }
  }

  lemma BagAssoc(a: Bag, b: Bag, c: Bag)
    ensures a + (b + c) == (a + b) + c
  {
  }

  lemma MergeNone(a: map<int, nat>, b: map<int, nat>)
    requires a.Keys == {}
    ensures a + b == b && Votes(a) == multiset{}
  {
    assert (a + b).Keys == b.Keys;
  }

  lemma MergeWithout(a: map<int, nat>, b: map<int, nat>, k: int)
    requires a.Keys !! b.Keys && k in a
    ensures Without(a + b, k) == Without(a, k) + b
    ensures Without(a, k).Keys !! b.Keys && (a + b)[k] == a[k]
  {
    var l, r := Without(a + b, k), Without(a, k) + b;
    forall x
      ensures x in l <==> x in r
      ensures x in l && x in r ==> l[x] == r[x]
    {
      assert x in b ==> x !in a && x != k;
    }
    assert l == r;
  }

  lemma {:induction false} VotesDisjoint(a: map<int, nat>, b: map<int, nat>)
    requires a.Keys !! b.Keys
    ensures Votes(a + b) == Votes(a) + Votes(b)
    decreases |a|
  {
    if a.Keys == {} {
      MergeNone(a, b);
    } else {
      var k := Bags.Member(a.Keys);
      MergeWithout(a, b, k);
      VotesDisjoint(Without(a, k), b);
      VotesTake(a + b, k);
      VotesTake(a, k);
      BagAssoc(multiset{a[k]}, Votes(Without(a, k)), Votes(b));
    }
  }
}
