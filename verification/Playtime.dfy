/** The n releases with the longest average playtime: internal/worker/hybrid/top_n_playtime. */
module Playtime {
  import opened Messages
  import Bags
  import opened Heap
  import opened TopVotes

  predicate Less(a: Release, b: Release) {
    a.avgPlaytime < b.avgPlaytime
  }

  lemma LessOrders()
    ensures Ordering(Less)
  {
  }

  function Offer(n: nat, h: seq<Release>, x: Release): seq<Release>
    requires n > 0
  {
    if |h| < n then Pushed(Less, h, x)
    else if x.avgPlaytime > h[0].avgPlaytime then Pushed(Less, Popped(Less, h), x)
    else h
  }

  function OfferAll(n: nat, h: seq<Release>, xs: seq<Release>): seq<Release>
    requires n > 0
  {
    if xs == [] then h else Offer(n, OfferAll(n, h, xs[..|xs| - 1]), xs[|xs| - 1])
  }

  function Playtimes(s: seq<Release>): (r: seq<int>)
    ensures |r| == |s|
  {
    seq(|s|, i requires 0 <= i < |s| => s[i].avgPlaytime)
  }

  /** h holds n of the releases (all of them, if fewer), none of them more often than it arrived, and no
      release left out has been played longer than one kept. */
  ghost predicate HeapOk(n: nat, h: seq<Release>, all: multiset<Release>) {
    && IsHeap(Less, h)
    && |h| == (if |all| < n then |all| else n)
    && multiset(h) <= all
    && LeftBelow(multiset(h), all - multiset(h))
  }

  ghost predicate LeftBelow(kept: multiset<Release>, left: multiset<Release>) {
    forall a, b :: a in kept && b in left ==> b.avgPlaytime <= a.avgPlaytime
  }

  lemma LeastIsFirst(h: seq<Release>)
    requires IsHeap(Less, h) && |h| > 0
    ensures h[0] in multiset(h) && forall r :: r in multiset(h) ==> h[0].avgPlaytime <= r.avgPlaytime
  {
    LessOrders();
    forall r | r in multiset(h)
      ensures h[0].avgPlaytime <= r.avgPlaytime
    {
      assert r in h;
      var i :| 0 <= i < |h| && h[i] == r;
      RootIsLeast(Less, h, i);
    }
  }

  lemma InsertKeeps(n: nat, h: seq<Release>, all: multiset<Release>, x: Release)
    requires n > 0 && HeapOk(n, h, all) && |h| < n
    ensures HeapOk(n, Pushed(Less, h, x), all + multiset{x})
  {
    LessOrders();
    PushedOk(Less, h, x);
    assert |all - multiset(h)| == |all| - |multiset(h)|;
    assert all - multiset(h) == multiset{};
    assert all == multiset(h);
  }

  lemma ReplaceKeeps(n: nat, h: seq<Release>, all: multiset<Release>, x: Release)
    requires n > 0 && HeapOk(n, h, all) && |h| >= n && x.avgPlaytime > h[0].avgPlaytime
    ensures HeapOk(n, Pushed(Less, Popped(Less, h), x), all + multiset{x})
  {
    LessOrders();
    LeastIsFirst(h);
    PoppedOk(Less, h);
    PushedOk(Less, Popped(Less, h), x);
    var kept := multiset(Popped(Less, h));
    assert kept == multiset(h) - multiset{h[0]};
    assert (all + multiset{x}) - (kept + multiset{x}) == (all - multiset(h)) + multiset{h[0]};
  }

  lemma RejectKeeps(n: nat, h: seq<Release>, all: multiset<Release>, x: Release)
    requires n > 0 && HeapOk(n, h, all) && |h| >= n && x.avgPlaytime <= h[0].avgPlaytime
    ensures HeapOk(n, h, all + multiset{x})
  {
    LeastIsFirst(h);
    assert (all + multiset{x}) - multiset(h) == (all - multiset(h)) + multiset{x};
  }

  lemma OfferKeeps(n: nat, h: seq<Release>, all: multiset<Release>, x: Release)
    requires n > 0 && HeapOk(n, h, all)
    ensures HeapOk(n, Offer(n, h, x), all + multiset{x})
  {
    if |h| < n {
      InsertKeeps(n, h, all, x);
    } else if x.avgPlaytime > h[0].avgPlaytime {
      ReplaceKeeps(n, h, all, x);
    } else {
      RejectKeeps(n, h, all, x);
    }
  }

  lemma {:induction false} OfferAllKeeps(n: nat, h: seq<Release>, all: multiset<Release>, xs: seq<Release>)
    requires n > 0 && HeapOk(n, h, all)
    ensures HeapOk(n, OfferAll(n, h, xs), all + multiset(xs))
  {
    if |xs| > 0 {
      var init, last := xs[..|xs| - 1], xs[|xs| - 1];
      assert xs == init + [last];
      OfferAllKeeps(n, h, all, init);
      OfferKeeps(n, OfferAll(n, h, init), all + multiset(init), last);
      assert all + multiset(xs) == all + multiset(init) + multiset{last};
    }
  }

  // The two loops over the heap, and the final sort.

  ghost predicate LongestFirst(s: seq<Release>) {
    forall i, j :: 0 <= i < j < |s| ==> s[i].avgPlaytime >= s[j].avgPlaytime
  }

  /** Where x belongs in a list sorted from the longest down. */
  method Insert(s: seq<Release>, x: Release) returns (r: seq<Release>)
    requires LongestFirst(s)
    ensures LongestFirst(r) && multiset(r) == multiset(s) + multiset{x}
  {
    var i := 0;
    while i < |s| && s[i].avgPlaytime >= x.avgPlaytime
      invariant 0 <= i <= |s|
      invariant forall j :: 0 <= j < i ==> s[j].avgPlaytime >= x.avgPlaytime
    {
      i := i + 1;
    }
    r := s[..i] + [x] + s[i..];
    Bags.Inserted(s, x, i);
    InsertedLongestFirst(s, x, i);
  }

  lemma InsertedLongestFirst(s: seq<Release>, x: Release, i: nat)
    requires LongestFirst(s) && i <= |s|
    requires forall j :: 0 <= j < i ==> s[j].avgPlaytime >= x.avgPlaytime
    requires i < |s| ==> s[i].avgPlaytime <= x.avgPlaytime
    ensures LongestFirst(s[..i] + [x] + s[i..])
  {
    var r := s[..i] + [x] + s[i..];
    forall a, b | 0 <= a < b < |r|
      ensures r[a].avgPlaytime >= r[b].avgPlaytime
    {
      assert a < i ==> r[a] == s[a];
      assert b > i ==> r[b] == s[b - 1];
      assert a > i ==> r[a] == s[a - 1];
      assert b < i ==> r[b] == s[b];
    }
  }

  /** Sorting from the longest playtime down; the order of equal playtimes is not relied upon. */
  method Sort(s: seq<Release>) returns (r: seq<Release>)
    ensures LongestFirst(r) && multiset(r) == multiset(s)
  {
    r := [];
    for i := 0 to |s|
      invariant LongestFirst(r) && multiset(r) == multiset(s[..i])
    {
      r := Insert(r, s[i]);
      assert s[..i + 1] == s[..i] + [s[i]];
    }
    assert s[..|s|] == s;
  }

  method UpdateReleases(h: PriorityQueue<Release>, releases: seq<Release>, n: nat)
    requires n > 0 && h.less == Less
    modifies h
    ensures h.items == OfferAll(n, old(h.items), releases)
  {
    for i := 0 to |releases|
      invariant h.items == OfferAll(n, old(h.items), releases[..i])
    {
      var release := releases[i];
      if |h.items| < n {
        h.Push(release);
      } else if release.avgPlaytime > h.items[0].avgPlaytime {
        var _ := h.Pop();
        h.Push(release);
      }
      assert releases[..i + 1][..i] == releases[..i];
    }
    assert releases[..|releases|] == releases;
  }

  /** Pops up to n releases off a copy of the heap and sorts them. */
  method TopNReleases(items: seq<Release>, n: nat) returns (top: seq<Release>)
    requires IsHeap(Less, items) && |items| <= n
    ensures LongestFirst(top) && multiset(top) == multiset(items)
  {
    LessOrders();
    var count := if |items| < n then |items| else n;
    var hCopy := new PriorityQueue(Less, items);
    top := [];
    for i := 0 to count
      invariant |hCopy.items| == |items| - i && hCopy.less == Less && IsHeap(Less, hCopy.items)
      invariant multiset(top) + multiset(hCopy.items) == multiset(items)
    {
      PoppedOk(Less, hCopy.items);
      var x := hCopy.Pop();
      top := top + [x];
    }
    top := Sort(top);
  }

  lemma PlaytimesMeasured(s: seq<Release>)
    ensures Playtimes(s) == Bags.Measured((r: Release) => r.avgPlaytime, s)
  {
  }

  /** Splitting a list of releases splits its playtimes. */
  lemma PlaytimesSplit(top: seq<Release>, xs: seq<Release>) returns (rest: seq<Release>)
    requires multiset(top) <= multiset(xs)
    ensures multiset(rest) == multiset(xs) - multiset(top)
    ensures multiset(Playtimes(xs)) == multiset(Playtimes(top)) + multiset(Playtimes(rest))
  {
    rest := Bags.Remainder(xs, top);
    assert multiset(top + rest) == multiset(xs);
    Bags.SameBagSameMeasures((r: Release) => r.avgPlaytime, top + rest, xs);
    PlaytimesMeasured(top + rest);
    PlaytimesMeasured(xs);
    assert Playtimes(top + rest) == Playtimes(top) + Playtimes(rest);
  }

  lemma PlayedBy(s: seq<Release>, x: int) returns (r: Release)
    requires x in multiset(Playtimes(s))
    ensures r in multiset(s) && r.avgPlaytime == x
  {
    assert x in Playtimes(s);
    var i :| 0 <= i < |s| && Playtimes(s)[i] == x;
    r := s[i];
  }

  lemma PlaytimesBelow(top: seq<Release>, rest: seq<Release>)
    requires LeftBelow(multiset(top), multiset(rest))
    ensures NoneAbove(multiset(Playtimes(top)), multiset(Playtimes(rest)))
  {
    forall x, y | x in multiset(Playtimes(top)) && y in multiset(Playtimes(rest))
      ensures y <= x
    {
      var a := PlayedBy(top, x);
      var b := PlayedBy(rest, y);
    }
  }

  /** The playtimes of a heap's releases are the n longest of all. */
  lemma HeapIsTop(n: nat, top: seq<Release>, xs: seq<Release>)
    requires |top| == (if |xs| < n then |xs| else n)
    requires multiset(top) <= multiset(xs) && LeftBelow(multiset(top), multiset(xs) - multiset(top))
    ensures IsTop(n, multiset(Playtimes(top)), multiset(Playtimes(xs)))
  {
    var rest := PlaytimesSplit(top, xs);
    PlaytimesBelow(top, rest);
    var kept, all := multiset(Playtimes(top)), multiset(Playtimes(xs));
    assert all - kept == multiset(Playtimes(rest));
  }

  /** Playtime top-N is exact: whatever the batches, the published list is the first n of all playtimes
      sorted from the longest, and each release is there at most as often as it arrived. */
  lemma PublishedIsExact(n: nat, xs: seq<Release>, top: seq<Release>)
    requires n > 0 && LongestFirst(top) && multiset(top) == multiset(OfferAll(n, [], xs))
    ensures Ranking(n, Playtimes(top), multiset(Playtimes(xs)))
    ensures multiset(top) <= multiset(xs)
  {
    var none: multiset<Release> := multiset{};
    assert HeapOk(n, [], none);
    OfferAllKeeps(n, [], none, xs);
    assert none + multiset(xs) == multiset(xs);
    assert |multiset(top)| == |top| && |multiset(xs)| == |xs|;
    assert |multiset(OfferAll(n, [], xs))| == |OfferAll(n, [], xs)|;
    HeapIsTop(n, top, xs);
  }

  /** How the releases are split into messages does not matter. */
  lemma {:induction false} BatchesConcatenate(n: nat, h: seq<Release>, a: seq<Release>, b: seq<Release>)
    requires n > 0
    ensures OfferAll(n, OfferAll(n, h, a), b) == OfferAll(n, h, a + b)
  {
    if b == [] {
      assert a + b == a;
    } else {
      BatchesConcatenate(n, h, a, b[..|b| - 1]);
      assert (a + b)[..|a + b| - 1] == a + b[..|b| - 1];
    }
  }
}
